/**
 * The numbers a DTLS writer puts on its records (d1_pkt.c, d1_both.c): the epoch and 48-bit sequence
 * number of every record sent, and the two counters that produce them.
 */
module WriteNumbers {
  const SEQ_LIMIT: nat := 0x1_0000_0000_0000
  const EPOCH_LIMIT: nat := 0x1_0000

  datatype Number = Number(epoch: nat, seqNum: nat)

  /** w_epoch, write_sequence, last_write_sequence, and all numbers used so far. */
  datatype Counters = Counters(wEpoch: nat, next: nat, last: nat, log: seq<Number>)

  /** The numbers of `n` consecutive records; a record carries the low 48 bits of the counter. */
  function Numbers(epoch: nat, from: nat, n: nat): (r: seq<Number>)
    ensures |r| == n
    ensures forall j :: 0 <= j < n ==> r[j] == Number(epoch, (from + j) % SEQ_LIMIT)
  {
    seq(n, j => Number(epoch, (from + j) % SEQ_LIMIT))
  }

  /** do_dtls1_write, `n` times */
  function Write(c: Counters, n: nat): Counters {
    c.(next := c.next + n, log := c.log + Numbers(c.wEpoch, c.next, n))
  }

  /** dtls1_reset_seq_numbers for the writing side */
  function ChangeEpoch(c: Counters): Counters {
    Counters((c.wEpoch + 1) % EPOCH_LIMIT, 0, c.next, c.log)
  }

  /** dtls1_retransmit_message for a message first sent under `epoch` and now sent in `n` records */
  function Replay(c: Counters, epoch: nat, n: nat): Counters {
    if epoch == c.wEpoch - 1 then
      c.(last := c.last + n, log := c.log + Numbers(epoch, c.last, n))
    else
      c.(next := c.next + n, log := c.log + Numbers(epoch, c.next, n))
  }

  datatype Event = NewRecords(n: nat) | NewEpoch | Retransmission(epoch: nat, n: nat)

  function Step(c: Counters, e: Event): Counters {
    match e
    case NewRecords(n) => Write(c, n)
    case NewEpoch => ChangeEpoch(c)
    case Retransmission(epoch, n) => Replay(c, epoch, n)
  }

  function Run(c: Counters, events: seq<Event>): Counters
    decreases |events|
  {
    if events == [] then c else Run(Step(c, events[0]), events[1..])
  }

  const Initial: Counters := Counters(0, 0, 0, [])

  /** What a caller can see before an event: counters have room, retransmissions are of the last two epochs. */
  predicate Permitted(c: Counters, e: Event) {
    match e
    case NewRecords(n) => c.next + n <= SEQ_LIMIT
    case NewEpoch => c.wEpoch + 1 < EPOCH_LIMIT
    case Retransmission(epoch, n) =>
      && epoch <= c.wEpoch <= epoch + 1
      && (if epoch == c.wEpoch then c.next else c.last) + n <= SEQ_LIMIT
  }

  predicate AllPermitted(c: Counters, events: seq<Event>)
    decreases |events|
  {
    events == [] || (Permitted(c, events[0]) && AllPermitted(Step(c, events[0]), events[1..]))
  }

  ghost predicate NoRepeats(log: seq<Number>) {
    forall i, j :: 0 <= i < j < |log| ==> log[i] != log[j]
  }

  /** How many records of `epoch` have been sent. */
  function Count(log: seq<Number>, epoch: nat): nat {
    if log == [] then 0
    else Count(log[..|log| - 1], epoch) + (if log[|log| - 1].epoch == epoch then 1 else 0)
  }

  /** The numbers used in `epoch` are 0, 1, ... without a gap. */
  ghost predicate Dense(log: seq<Number>, epoch: nat) {
    forall k: nat :: Number(epoch, k) in log <==> k < Count(log, epoch)
  }

  /**
   * write_sequence is the next number of the current epoch, last_write_sequence the next number of the
   * one before, later epochs are untouched, and no number was used twice.
   */
  ghost predicate Inv(c: Counters) {
    && c.wEpoch < EPOCH_LIMIT
    && c.next <= SEQ_LIMIT && c.last <= SEQ_LIMIT
    && NoRepeats(c.log)
    && (forall e: nat :: Dense(c.log, e))
    && (forall e: nat :: e > c.wEpoch ==> Count(c.log, e) == 0)
    && Count(c.log, c.wEpoch) == c.next
    && (c.wEpoch > 0 ==> Count(c.log, c.wEpoch - 1) == c.last)
  }

  lemma {:induction false} CountConcat(a: seq<Number>, b: seq<Number>, epoch: nat)
    ensures Count(a + b, epoch) == Count(a, epoch) + Count(b, epoch)
  {
    if b == [] {
      assert a + b == a;
    } else {
      CountConcat(a, b[..|b| - 1], epoch);
      assert (a + b)[..|a + b| - 1] == a + b[..|b| - 1];
    }
  }

  lemma {:induction false} CountNumbers(epoch: nat, from: nat, n: nat, e: nat)
    ensures Count(Numbers(epoch, from, n), e) == if e == epoch then n else 0
  {
    if n > 0 {
      CountNumbers(epoch, from, n - 1, e);
      assert Numbers(epoch, from, n)[..n - 1] == Numbers(epoch, from, n - 1);
    }
  }

  /** Below the limit the low 48 bits are the whole counter. */
  lemma NumbersExact(epoch: nat, from: nat, n: nat)
    requires from + n <= SEQ_LIMIT
    ensures forall j :: 0 <= j < n ==> Numbers(epoch, from, n)[j] == Number(epoch, from + j)
  {
    forall j | 0 <= j < n ensures Numbers(epoch, from, n)[j] == Number(epoch, from + j) {
      SmallMod(from + j);
    }
  }

  lemma SmallMod(k: nat)
    requires k < SEQ_LIMIT
    ensures k % SEQ_LIMIT == k
  {
  }

  lemma InNumbers(epoch: nat, from: nat, n: nat, x: Number)
    requires from + n <= SEQ_LIMIT
    ensures x in Numbers(epoch, from, n) <==> x.epoch == epoch && from <= x.seqNum < from + n
  {
    NumbersExact(epoch, from, n);
    if x.epoch == epoch && from <= x.seqNum < from + n {
      assert Numbers(epoch, from, n)[x.seqNum - from] == x;
    }
  }

  /** New numbers above those used in their epoch repeat nothing. */
  lemma FreshNumbers(log: seq<Number>, epoch: nat, from: nat, n: nat)
    requires NoRepeats(log) && Dense(log, epoch)
    requires Count(log, epoch) <= from && from + n <= SEQ_LIMIT
    ensures NoRepeats(log + Numbers(epoch, from, n))
  {
    var more := Numbers(epoch, from, n);
    var after := log + more;
    NumbersExact(epoch, from, n);
    forall i, j | 0 <= i < j < |after| ensures after[i] != after[j] {
      if |log| <= j {
        assert after[j] == Number(epoch, from + (j - |log|));
        if i < |log| {
          assert after[i] == log[i];
          assert log[i] in log;
        } else {
          assert after[i] == Number(epoch, from + (i - |log|));
        }
      }
    }
  }

  lemma ExtendCount(log: seq<Number>, epoch: nat, from: nat, n: nat, e: nat)
    ensures Count(log + Numbers(epoch, from, n), e) == Count(log, e) + if e == epoch then n else 0
  {
    CountConcat(log, Numbers(epoch, from, n), e);
    CountNumbers(epoch, from, n, e);
  }

  lemma ExtendDenseAt(log: seq<Number>, epoch: nat, n: nat, e: nat)
    requires Dense(log, e) && Count(log, epoch) + n <= SEQ_LIMIT
    ensures Dense(log + Numbers(epoch, Count(log, epoch), n), e)
  {
    var more := Numbers(epoch, Count(log, epoch), n);
    ExtendCount(log, epoch, Count(log, epoch), n, e);
    forall k: nat ensures Number(e, k) in log + more <==> k < Count(log + more, e) {
      InNumbers(epoch, Count(log, epoch), n, Number(e, k));
    }
  }

  /** Sending the next `n` numbers of an epoch keeps every epoch dense and repeats nothing. */
  lemma ExtendDense(log: seq<Number>, epoch: nat, n: nat)
    requires NoRepeats(log) && forall e: nat :: Dense(log, e)
    requires Count(log, epoch) + n <= SEQ_LIMIT
    ensures var after := log + Numbers(epoch, Count(log, epoch), n);
            && NoRepeats(after)
            && (forall e: nat :: Dense(after, e))
            && (forall e: nat :: Count(after, e) == Count(log, e) + if e == epoch then n else 0)
  {
    FreshNumbers(log, epoch, Count(log, epoch), n);
    forall e: nat
      ensures Dense(log + Numbers(epoch, Count(log, epoch), n), e)
      ensures Count(log + Numbers(epoch, Count(log, epoch), n), e) == Count(log, e) + if e == epoch then n else 0
    {
      ExtendDenseAt(log, epoch, n, e);
      ExtendCount(log, epoch, Count(log, epoch), n, e);
    }
  }

  lemma StepKeepsInv(c: Counters, e: Event)
    requires Inv(c) && Permitted(c, e)
    ensures Inv(Step(c, e))
  {
    match e
    case NewRecords(n) =>
      ExtendDense(c.log, c.wEpoch, n);
    case NewEpoch =>
    case Retransmission(epoch, n) =>
      ExtendDense(c.log, epoch, n);
  }

  /** No interleaving of new records, epoch changes and retransmissions puts one number on the wire twice. */
  lemma {:induction false} NumbersNeverRepeat(c: Counters, events: seq<Event>)
    requires Inv(c) && AllPermitted(c, events)
    ensures Inv(Run(c, events)) && NoRepeats(Run(c, events).log)
    decreases |events|
  {
    if events != [] {
      StepKeepsInv(c, events[0]);
      NumbersNeverRepeat(Step(c, events[0]), events[1..]);
    }
  }

  lemma InitialInv()
    ensures Inv(Initial)
  {
    forall e: nat ensures Dense(Initial.log, e) && Count(Initial.log, e) == 0 {}
  }

  /**
   * A message older than both epochs is resent under the counter of the current one. That repeats a
   * number exactly when the counter has not yet passed the number of records the old epoch had.
   */
  lemma OldEpochReplayRepeatsIff(c: Counters, epoch: nat, n: nat)
    requires Inv(c) && epoch <= c.wEpoch && n > 0
    requires (if epoch + 1 == c.wEpoch then c.last else c.next) + n <= SEQ_LIMIT
    ensures !NoRepeats(Replay(c, epoch, n).log) <==> epoch + 1 < c.wEpoch && c.next < Count(c.log, epoch)
  {
    assert Dense(c.log, epoch);
    var from := if epoch + 1 == c.wEpoch then c.last else c.next;
    var after := c.log + Numbers(epoch, from, n);
    if from < Count(c.log, epoch) {
      NumbersExact(epoch, from, n);
      assert after[|c.log|] == Number(epoch, from);
      var i :| 0 <= i < |c.log| && c.log[i] == Number(epoch, from);
      assert after[i] == after[|c.log|];
    } else {
      FreshNumbers(c.log, epoch, from, n);
    }
  }
}
