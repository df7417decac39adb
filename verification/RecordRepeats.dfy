/**
 * When a record is processed twice (d1_pkt.c): records buffered for the next epoch are processed without
 * the check that records from the wire pass, so it takes a record that is still queued after the wire has
 * brought it once more.
 */
module RecordRepeats {
  import opened PQueue
  import opened ReplayWindow
  import opened RecordSpec

  /** No record was processed twice, whichever way it came. */
  ghost predicate NoRepeats(log: seq<Accepted>) {
    forall i, j :: 0 <= i < j < |log| ==> (log[i].epoch, log[i].num) != (log[j].epoch, log[j].num)
  }

  ghost predicate Keyed(q: seq<Item<Rec>>) {
    forall i :: 0 <= i < |q| ==> q[i].key == q[i].data.Num()
  }

  /** How many leading records of the queue are authentic: those that one drain processes */
  function Passing(q: seq<Item<Rec>>, epoch: nat, auth: Authentic): (n: nat)
    ensures n <= |q|
  {
    if q == [] || !auth(epoch, q[0].data) then 0 else 1 + Passing(q[1..], epoch, auth)
  }

  function Entries(q: seq<Item<Rec>>, epoch: nat): (r: seq<Accepted>)
    ensures |r| == |q|
    ensures forall i :: 0 <= i < |q| ==> r[i] == Accepted(epoch, q[i].data.Num(), false)
  {
    seq(|q|, i requires 0 <= i < |q| => Accepted(epoch, q[i].data.Num(), false))
  }

  /** A drain processes the authentic head of the queue and drops the record behind it. */
  lemma {:induction false} DrainIs(s: Reader, auth: Authentic, width: nat)
    requires QueuesSorted(s)
    ensures var (r, ok) := Drain(s, auth, width);
            var n := Passing(s.unprocessed, s.rEpoch, auth);
            && r.log == s.log + Entries(s.unprocessed[..n], s.rEpoch)
            && (ok <==> n == |s.unprocessed|)
            && r.unprocessed == (if ok then [] else s.unprocessed[n + 1..])
            && r.rEpoch == s.rEpoch && r.unprocessedEpoch == s.unprocessedEpoch
    decreases |s.unprocessed|
  {
    var q := s.unprocessed;
    if q == [] || !auth(s.rEpoch, q[0].data) {
      assert q[..0] == [] && s.log + [] == s.log;
    } else {
      var s' := Process(s.(unprocessed := q[1..]), q[0].data, false, auth, width).0;
      var t := s'.(processed := Buffer(s'.processed, q[0].data));
      DrainIs(t, auth, width);
      EntriesCons(q, Passing(q, s.rEpoch, auth), s.rEpoch, s.log);
    }
  }

  lemma EntriesCons(q: seq<Item<Rec>>, n: nat, epoch: nat, log: seq<Accepted>)
    requires 0 < n <= |q|
    ensures log + [Accepted(epoch, q[0].data.Num(), false)] + Entries(q[1..][..n - 1], epoch)
            == log + Entries(q[..n], epoch)
    ensures forall k :: n <= k <= |q| ==> q[1..][k - 1..] == q[k..]
  {
    assert [Accepted(epoch, q[0].data.Num(), false)] + Entries(q[1..][..n - 1], epoch) == Entries(q[..n], epoch);
  }

  /** None of the first `n` queued records has been processed in the epoch. */
  ghost predicate Unseen(q: seq<Item<Rec>>, n: nat, epoch: nat, log: seq<Accepted>)
    requires n <= |q|
  {
    forall i :: 0 <= i < n ==> q[i].data.Num() !in Numbers(log, epoch)
  }

  lemma SeenRepeats(log: seq<Accepted>, q: seq<Item<Rec>>, n: nat, epoch: nat)
    requires n <= |q| && !Unseen(q, n, epoch, log)
    ensures !NoRepeats(log + Entries(q[..n], epoch))
  {
    var all := log + Entries(q[..n], epoch);
    var j :| 0 <= j < n && q[j].data.Num() in Numbers(log, epoch);
    InNumbers(log, epoch, q[j].data.Num());
    var i :| 0 <= i < |log| && log[i].epoch == epoch && log[i].num == q[j].data.Num();
    assert all[i] == log[i] && all[|log| + j] == Entries(q[..n], epoch)[j];
  }

  lemma EntriesRepeatIff(log: seq<Accepted>, q: seq<Item<Rec>>, n: nat, epoch: nat)
    requires NoRepeats(log) && Sorted(q) && Keyed(q) && n <= |q|
    ensures NoRepeats(log + Entries(q[..n], epoch)) <==> Unseen(q, n, epoch, log)
  {
    var more := Entries(q[..n], epoch);
    var all := log + more;
    if !Unseen(q, n, epoch, log) {
      SeenRepeats(log, q, n, epoch);
    } else {
      forall i, j | 0 <= i < j < |all| ensures (all[i].epoch, all[i].num) != (all[j].epoch, all[j].num) {
        if |log| <= j {
          var k := j - |log|;
          assert all[j] == more[k];
          if i < |log| { InNumbers(log, epoch, q[k].data.Num()); } else { assert all[i] == more[i - |log|]; }
        }
      }
    }
  }

  /**
   * A drain of the buffered records processes none a second time exactly when none of its authentic head
   * has been processed in the epoch: the check that the code leaves out.
   */
  lemma DrainRepeatsIff(s: Reader, auth: Authentic, width: nat)
    requires QueuesSorted(s) && Keyed(s.unprocessed) && NoRepeats(s.log)
    ensures NoRepeats(Drain(s, auth, width).0.log)
            <==> Unseen(s.unprocessed, Passing(s.unprocessed, s.rEpoch, auth), s.rEpoch, s.log)
  {
    DrainIs(s, auth, width);
    EntriesRepeatIff(s.log, s.unprocessed, Passing(s.unprocessed, s.rEpoch, auth), s.rEpoch);
  }

  // ---- Over runs ----

  lemma BufferKeyed(q: seq<Item<Rec>>, r: Rec)
    requires Sorted(q) && Keyed(q)
    ensures Keyed(Buffer(q, r))
  {
    var n, after := Slot(q, r.Num()), Buffer(q, r);
    if after != q {
      forall i | 0 <= i < |after| ensures after[i].key == after[i].data.Num() {
        assert after[i] == if i < n then q[i] else if i == n then Item(r.Num(), r) else q[i - 1];
      }
    }
  }

  /** What the wire brings is only added to the log, and marked as such. */
  ghost predicate AddsWire(log: seq<Accepted>, log': seq<Accepted>) {
    log <= log' && forall j :: |log| <= j < |log'| ==> log'[j].fromWire
  }

  lemma {:induction false} ReadWireAdds(s: Reader, wire: seq<Rec>, inHandshake: bool, auth: Authentic, width: nat)
    requires QueuesSorted(s) && Keyed(s.unprocessed)
    ensures var r := ReadWire(s, wire, inHandshake, auth, width).0;
            AddsWire(s.log, r.log) && Keyed(r.unprocessed) && r.unprocessedEpoch == s.unprocessedEpoch
    decreases |wire|
  {
    if wire != [] {
      BufferKeyed(s.unprocessed, wire[0]);
      var (s', ok) := FromWire(s, wire[0], inHandshake, auth, width);
      if !ok { ReadWireAdds(s', wire[1..], inHandshake, auth, width); }
    }
  }

  lemma AddedOnce(log: seq<Accepted>, log': seq<Accepted>)
    requires AddsWire(log, log') && WireOnce(log')
    ensures NoRepeats(log') <==> NoRepeats(log)
  {
    if NoRepeats(log') {
      forall i, j | 0 <= i < j < |log| ensures (log[i].epoch, log[i].num) != (log[j].epoch, log[j].num) {
        assert log[i] == log'[i] && log[j] == log'[j];
      }
    }
    if NoRepeats(log) {
      forall i, j | 0 <= i < j < |log'| ensures (log'[i].epoch, log'[i].num) != (log'[j].epoch, log'[j].num) {
        if j < |log| { assert log[i] == log'[i] && log[j] == log'[j]; }
      }
    }
  }

  /** Whether the next call will process buffered records at all */
  predicate WillDrain(s: Reader) { s.unprocessed != [] && s.unprocessedEpoch == s.rEpoch }

  /** What a caller can see in the queue before a call: nothing that is about to be processed has been before. */
  ghost predicate QueueUnseen(s: Reader, auth: Authentic) {
    WillDrain(s) ==> Unseen(s.unprocessed, Passing(s.unprocessed, s.rEpoch, auth), s.rEpoch, s.log)
  }

  lemma BufferedRepeatsIff(s: Reader, auth: Authentic, width: nat)
    requires QueuesSorted(s) && Keyed(s.unprocessed) && NoRepeats(s.log)
    ensures NoRepeats(ProcessBuffered(s, auth, width).log) <==> QueueUnseen(s, auth)
    ensures Keyed(ProcessBuffered(s, auth, width).unprocessed)
  {
    DrainRepeatsIff(s, auth, width);
    DrainIs(s, auth, width);
  }

  /** One call of dtls1_get_record */
  lemma GetRepeatsIff(s: Reader, wire: seq<Rec>, inHandshake: bool, auth: Authentic, width: nat)
    requires Safe(s, width) && Keyed(s.unprocessed) && NoRepeats(s.log)
    ensures var r := GetRecord(s, wire, inHandshake, auth, width).0;
            Keyed(r.unprocessed) && (NoRepeats(r.log) <==> QueueUnseen(s, auth))
  {
    var b := ProcessBuffered(s, auth, width);
    BufferedRepeatsIff(s, auth, width);
    GetRecordKeepsSafe(s, wire, inHandshake, auth, width);
    if b.processed == [] {
      ReadWireAdds(b, wire, inHandshake, auth, width);
      AddedOnce(b.log, ReadWire(b, wire, inHandshake, auth, width).0.log);
    }
  }

  /** Before every call of the run nothing is about to be processed again. */
  ghost predicate NeverRequeued(s: Reader, actions: seq<Action>, auth: Authentic, width: nat)
    requires QueuesSorted(s)
    decreases |actions|
  {
    actions == [] ||
    match actions[0]
    case Get(wire, inHandshake) =>
      GetRecordSorted(s, wire, inHandshake, auth, width);
      QueueUnseen(s, auth) && NeverRequeued(GetRecord(s, wire, inHandshake, auth, width).0, actions[1..], auth, width)
    case NewEpoch => NeverRequeued(ChangeReadEpoch(s), actions[1..], auth, width)
  }

  lemma {:induction false} DrainExtends(s: Reader, wire: seq<Rec>, inHandshake: bool, auth: Authentic, width: nat)
    requires QueuesSorted(s) && Keyed(s.unprocessed)
    ensures s.log <= GetRecord(s, wire, inHandshake, auth, width).0.log
    ensures Keyed(GetRecord(s, wire, inHandshake, auth, width).0.unprocessed)
  {
    DrainIs(s, auth, width);
    ReadWireAdds(ProcessBuffered(s, auth, width), wire, inHandshake, auth, width);
  }

  lemma {:induction false} RunExtends(s: Reader, actions: seq<Action>, auth: Authentic, width: nat)
    requires QueuesSorted(s) && Keyed(s.unprocessed)
    ensures s.log <= Run(s, actions, auth, width).log
    decreases |actions|
  {
    if actions != [] {
      match actions[0]
      case Get(wire, inHandshake) =>
        GetRecordSorted(s, wire, inHandshake, auth, width);
        DrainExtends(s, wire, inHandshake, auth, width);
        RunExtends(GetRecord(s, wire, inHandshake, auth, width).0, actions[1..], auth, width);
      case NewEpoch => RunExtends(ChangeReadEpoch(s), actions[1..], auth, width);
    }
  }

  lemma RepeatsStay(log: seq<Accepted>, log': seq<Accepted>)
    requires log <= log' && !NoRepeats(log)
    ensures !NoRepeats(log')
  {
    var i, j :| 0 <= i < j < |log| && (log[i].epoch, log[i].num) == (log[j].epoch, log[j].num);
    assert log'[i] == log[i] && log'[j] == log[j];
  }

  /**
   * Over every run, and whatever arrives: no record at all, from the wire or from the queue, is processed
   * twice exactly when no call finds a record at the authentic head of its queue that was processed before.
   */
  lemma {:induction false} NoRecordTwiceIff(s: Reader, actions: seq<Action>, auth: Authentic, width: nat)
    requires Safe(s, width) && s.rEpoch + Epochs(actions) < EPOCH_MODULUS
    requires Keyed(s.unprocessed) && NoRepeats(s.log)
    ensures NoRepeats(Run(s, actions, auth, width).log) <==> NeverRequeued(s, actions, auth, width)
    decreases |actions|
  {
    if actions != [] {
      match actions[0]
      case Get(wire, inHandshake) =>
        var r := GetRecord(s, wire, inHandshake, auth, width).0;
        GetRecordKeepsSafe(s, wire, inHandshake, auth, width);
        GetRecordEpoch(s, wire, inHandshake, auth, width);
        GetRepeatsIff(s, wire, inHandshake, auth, width);
        if NoRepeats(r.log) {
          NoRecordTwiceIff(r, actions[1..], auth, width);
        } else {
          RunExtends(r, actions[1..], auth, width);
          RepeatsStay(r.log, Run(r, actions[1..], auth, width).log);
        }
      case NewEpoch =>
        ChangeEpochKeepsSafe(s, width);
        NoRecordTwiceIff(ChangeReadEpoch(s), actions[1..], auth, width);
    }
  }

  // ---- While no drain fails ----

  /** Every drain of the run gets through its queue. */
  ghost predicate DrainsPass(s: Reader, actions: seq<Action>, auth: Authentic, width: nat)
    requires QueuesSorted(s)
    decreases |actions|
  {
    actions == [] ||
    match actions[0]
    case Get(wire, inHandshake) =>
      GetRecordSorted(s, wire, inHandshake, auth, width);
      && (WillDrain(s) ==> Passing(s.unprocessed, s.rEpoch, auth) == |s.unprocessed|)
      && DrainsPass(GetRecord(s, wire, inHandshake, auth, width).0, actions[1..], auth, width)
    case NewEpoch => DrainsPass(ChangeReadEpoch(s), actions[1..], auth, width)
  }

  /** A queue that is about to be drained belongs to an epoch in which nothing has been processed yet. */
  ghost predicate DrainIsFirst(s: Reader) {
    WillDrain(s) ==> Numbers(s.log, s.rEpoch) == {}
  }

  lemma BufferedMovesOn(s: Reader, auth: Authentic, width: nat)
    requires QueuesSorted(s) && s.rEpoch < EPOCH_MODULUS
    requires WillDrain(s) ==> Passing(s.unprocessed, s.rEpoch, auth) == |s.unprocessed|
    ensures ProcessBuffered(s, auth, width).unprocessedEpoch != s.rEpoch
  {
    if s.unprocessed == [] || WillDrain(s) { DrainedMovesOn(s, auth, width); }
  }

  lemma DrainedMovesOn(s: Reader, auth: Authentic, width: nat)
    requires QueuesSorted(s) && s.rEpoch < EPOCH_MODULUS && (s.unprocessed == [] || WillDrain(s))
    requires Passing(s.unprocessed, s.rEpoch, auth) == |s.unprocessed|
    ensures ProcessBuffered(s, auth, width).unprocessedEpoch != s.rEpoch
  {
    DrainIs(s, auth, width);
    NextEpochDiffers(s.rEpoch);
  }

  lemma NextEpochDiffers(epoch: nat)
    requires epoch < EPOCH_MODULUS
    ensures (epoch + 1) % EPOCH_MODULUS != epoch
  {
  }

  lemma GetKeepsFirst(s: Reader, wire: seq<Rec>, inHandshake: bool, auth: Authentic, width: nat)
    requires Safe(s, width) && Keyed(s.unprocessed)
    requires WillDrain(s) ==> Passing(s.unprocessed, s.rEpoch, auth) == |s.unprocessed|
    ensures !WillDrain(GetRecord(s, wire, inHandshake, auth, width).0)
  {
    var b := ProcessBuffered(s, auth, width);
    BufferedMovesOn(s, auth, width);
    DrainIs(s, auth, width);
    if b.processed == [] { ReadWireAdds(b, wire, inHandshake, auth, width); }
    GetRecordEpoch(s, wire, inHandshake, auth, width);
  }

  lemma EpochIsNew(s: Reader, width: nat)
    requires Safe(s, width) && s.rEpoch + 1 < EPOCH_MODULUS
    ensures DrainIsFirst(ChangeReadEpoch(s))
  {
    var next := Numbers(s.log, s.rEpoch + 1);
    if next != {} {
      var n :| n in next;
      InNumbers(s.log, s.rEpoch + 1, n);
    }
  }

  lemma {:induction false} PassingDrainsNeverRequeue(s: Reader, actions: seq<Action>, auth: Authentic, width: nat)
    requires Safe(s, width) && s.rEpoch + Epochs(actions) < EPOCH_MODULUS
    requires Keyed(s.unprocessed) && DrainIsFirst(s) && DrainsPass(s, actions, auth, width)
    ensures NeverRequeued(s, actions, auth, width)
    decreases |actions|
  {
    if actions != [] {
      match actions[0]
      case Get(wire, inHandshake) =>
        GetRecordKeepsSafe(s, wire, inHandshake, auth, width);
        GetRecordEpoch(s, wire, inHandshake, auth, width);
        DrainExtends(s, wire, inHandshake, auth, width);
        GetKeepsFirst(s, wire, inHandshake, auth, width);
        PassingDrainsNeverRequeue(GetRecord(s, wire, inHandshake, auth, width).0, actions[1..], auth, width);
      case NewEpoch =>
        ChangeEpochKeepsSafe(s, width);
        EpochIsNew(s, width);
        PassingDrainsNeverRequeue(ChangeReadEpoch(s), actions[1..], auth, width);
    }
  }

  /** From the start of a connection: while every drain gets through its queue, no record is processed twice. */
  lemma PassingDrainsNeverRepeat(actions: seq<Action>, auth: Authentic, width: nat)
    requires IsWidth(width) && Epochs(actions) < EPOCH_MODULUS && DrainsPass(Start, actions, auth, width)
    ensures NoRepeats(Run(Start, actions, auth, width).log)
  {
    StartIsSafe(width);
    PassingDrainsNeverRequeue(Start, actions, auth, width);
    NoRecordTwiceIff(Start, actions, auth, width);
  }

  // ---- A run in which a record is processed twice ----

  predicate IsEarly(r: Rec, epoch: nat) { r.epoch == epoch + 1 && r.typ.HandshakeType? && r.length > 0 }

  /** A record of the next epoch that arrives early is queued. */
  lemma EarlyRecordIsQueued(s: Reader, r: Rec, auth: Authentic, width: nat)
    requires IsWidth(width) && QueuesSorted(s) && s.nextWindow == Fresh && IsEarly(r, s.rEpoch)
    requires |s.unprocessed| < QUEUE_LIMIT && forall i :: 0 <= i < |s.unprocessed| ==> s.unprocessed[i].key < r.Num()
    ensures FromWire(s, r, true, auth, width) == (s.(unprocessed := s.unprocessed + [Item(r.Num(), r)]), false)
  {
    FreshRefines(width);
    CheckIff(Fresh, {}, r.Num(), width);
    InsertAppends(s.unprocessed, Item(r.Num(), r));
  }

  lemma ReadTwo(s: Reader, a: Rec, b: Rec, s1: Reader, s2: Reader, auth: Authentic, width: nat)
    requires QueuesSorted(s) && QueuesSorted(s1)
    requires FromWire(s, a, true, auth, width) == (s1, false) && FromWire(s1, b, true, auth, width) == (s2, false)
    ensures ReadWire(s, [a, b], true, auth, width).0 == s2
  {
    assert [a, b][1..] == [b] && [b][1..] == [];
    assert ReadWire(s1, [b], true, auth, width).0 == s2;
  }

  lemma EarlyRecordsAreQueued(bad: Rec, good: Rec, auth: Authentic, width: nat)
    requires IsWidth(width) && IsEarly(bad, 0) && IsEarly(good, 0) && bad.Num() < good.Num()
    ensures GetRecord(Start, [bad, good], true, auth, width).0
            == Start.(unprocessed := [Item(bad.Num(), bad), Item(good.Num(), good)], unprocessedEpoch := 1)
  {
    var b := Start.(unprocessedEpoch := 1);
    assert ProcessBuffered(Start, auth, width) == b;
    EarlyRecordIsQueued(b, bad, auth, width);
    var one := FromWire(b, bad, true, auth, width).0;
    EarlyRecordIsQueued(one, good, auth, width);
    ReadTwo(b, bad, good, one, FromWire(one, good, true, auth, width).0, auth, width);
  }

  /** The change of epoch finds them waiting. */
  lemma EarlyRecordsWait(bad: Rec, good: Rec, auth: Authentic, width: nat)
    requires IsWidth(width) && IsEarly(bad, 0) && IsEarly(good, 0) && bad.Num() < good.Num()
    ensures var t := ChangeReadEpoch(GetRecord(Start, [bad, good], true, auth, width).0);
            && Safe(t, width) && t.log == [] && t.processed == [] && t.window == Fresh
            && t.unprocessed == [Item(bad.Num(), bad), Item(good.Num(), good)] && t.unprocessedEpoch == t.rEpoch == 1
  {
    EarlyRecordsAreQueued(bad, good, auth, width);
    StartIsSafe(width);
    GetRecordKeepsSafe(Start, [bad, good], true, auth, width);
    FirstEpochEnds(GetRecord(Start, [bad, good], true, auth, width).0, width);
  }

  lemma FirstEpochEnds(s: Reader, width: nat)
    requires Safe(s, width) && s.rEpoch == 0 && s.unprocessedEpoch == 1
    ensures var t := ChangeReadEpoch(s);
            && Safe(t, width) && t.log == s.log && t.processed == s.processed && t.window == Fresh
            && t.unprocessed == s.unprocessed && t.unprocessedEpoch == t.rEpoch == 1
  {
    ChangeEpochKeepsSafe(s, width);
  }

  /** A failing record at the head of the queue stops the drain; the wire then brings the next one. */
  lemma FailedHeadThenWire(s: Reader, bad: Rec, good: Rec, auth: Authentic, width: nat)
    requires IsWidth(width) && Safe(s, width) && s.log == [] && s.processed == []
    requires s.unprocessed == [Item(bad.Num(), bad), Item(good.Num(), good)] && s.unprocessedEpoch == s.rEpoch
    requires auth(s.rEpoch, good) && !auth(s.rEpoch, bad) && good.length > 0 && good.epoch == s.rEpoch
    requires good.Num() + width > s.window.max
    ensures var t := GetRecord(s, [good], true, auth, width).0;
            && t.log == [Accepted(s.rEpoch, good.Num(), true)] && t.processed == []
            && t.unprocessed == [Item(good.Num(), good)]
            && t.unprocessedEpoch == t.rEpoch == s.rEpoch
  {
    assert s.unprocessed[1..] == [Item(good.Num(), good)];
    var b := ProcessBuffered(s, auth, width);
    assert b == s.(unprocessed := [Item(good.Num(), good)]);
    WireRecordProcessedIff(b, good, true, auth, width);
  }

  /** A queue of one record is processed, whatever the window says about its number. */
  lemma QueuedIsNotChecked(s: Reader, good: Rec, auth: Authentic, width: nat)
    requires s.unprocessed == [Item(good.Num(), good)] && s.processed == []
    requires s.unprocessedEpoch == s.rEpoch && auth(s.rEpoch, good)
    ensures GetRecord(s, [], true, auth, width).0.log == s.log + [Accepted(s.rEpoch, good.Num(), false)]
  {
    assert s.unprocessed[1..] == [];
    var p := Process(s.(unprocessed := []), good, false, auth, width).0;
    assert Drain(s, auth, width) == (p.(processed := Buffer([], good)), true);
  }

  /**
   * From the start of a connection: two records of the next epoch arrive early, the first of them does not
   * authenticate, and after the change of epoch the second arrives once more. It is processed from the wire
   * and then again from the queue.
   */
  lemma QueuedRecordCanRepeat(bad: Rec, good: Rec, auth: Authentic, width: nat)
    requires IsWidth(width) && IsEarly(bad, 0) && IsEarly(good, 0) && bad.Num() < good.Num()
    requires auth(1, good) && !auth(1, bad)
    ensures Run(Start, [Get([bad, good], true), NewEpoch, Get([good], true), Get([], true)], auth, width).log
            == [Accepted(1, good.Num(), true), Accepted(1, good.Num(), false)]
  {
    EarlyRecordsWait(bad, good, auth, width);
    RunOfFour(Start, Get([bad, good], true), Get([good], true), Get([], true), auth, width);
    RepeatFrom(ChangeReadEpoch(GetRecord(Start, [bad, good], true, auth, width).0), bad, good, auth, width);
  }

  lemma RepeatFrom(t: Reader, bad: Rec, good: Rec, auth: Authentic, width: nat)
    requires Safe(t, width) && t.log == [] && t.processed == [] && t.window == Fresh
    requires t.unprocessed == [Item(bad.Num(), bad), Item(good.Num(), good)] && t.unprocessedEpoch == t.rEpoch == 1
    requires IsEarly(bad, 0) && IsEarly(good, 0) && auth(1, good) && !auth(1, bad)
    ensures var u := GetRecord(t, [good], true, auth, width).0;
            && QueuesSorted(u)
            && GetRecord(u, [], true, auth, width).0.log
               == [Accepted(1, good.Num(), true), Accepted(1, good.Num(), false)]
  {
    FailedHeadThenWire(t, bad, good, auth, width);
    GetRecordSorted(t, [good], true, auth, width);
    QueuedIsNotChecked(GetRecord(t, [good], true, auth, width).0, good, auth, width);
  }

  lemma RunOfFour(s: Reader, a: Action, b: Action, c: Action, auth: Authentic, width: nat)
    requires QueuesSorted(s) && a.Get? && b.Get? && c.Get?
    ensures var s1 := ChangeReadEpoch(GetRecord(s, a.wire, a.inHandshake, auth, width).0);
            QueuesSorted(s1) &&
            var s2 := GetRecord(s1, b.wire, b.inHandshake, auth, width).0;
            QueuesSorted(s2) &&
            Run(s, [a, NewEpoch, b, c], auth, width) == GetRecord(s2, c.wire, c.inHandshake, auth, width).0
  {
    GetRecordSorted(s, a.wire, a.inHandshake, auth, width);
    var s0 := GetRecord(s, a.wire, a.inHandshake, auth, width).0;
    var s1 := ChangeReadEpoch(s0);
    GetRecordSorted(s1, b.wire, b.inHandshake, auth, width);
    var s2 := GetRecord(s1, b.wire, b.inHandshake, auth, width).0;
    GetRecordSorted(s2, c.wire, c.inHandshake, auth, width);
    var s3 := GetRecord(s2, c.wire, c.inHandshake, auth, width).0;
    assert [c][1..] == [] && [b, c][1..] == [c] && [NewEpoch, b, c][1..] == [b, c];
    assert [a, NewEpoch, b, c][1..] == [NewEpoch, b, c];
    assert Run(s2, [c], auth, width) == Run(s3, [], auth, width) == s3;
    assert Run(s1, [b, c], auth, width) == Run(s2, [c], auth, width);
    assert Run(s0, [NewEpoch, b, c], auth, width) == Run(s1, [b, c], auth, width);
  }
}
