/**
 * The client's driver together with its sending side, over all runs: which messages sent_messages holds when,
 * whether their order is that of sending, and that no record number is used twice.
 */
module ClientFlights {
  import opened FragmentPlan
  import opened HandshakeEvents
  import opened HandshakeWriter
  import opened SendOrder
  import opened WriteNumbers
  import opened Flights
  import Driver = ClientDriver

  /** `prepared`: the message of this state has its number and is kept, but is not yet written. */
  datatype Joint = Joint(d: Driver.State, prepared: bool, s: Sender)

  function Start(keys: WriteState): Joint { Joint(Driver.INITIAL, false, Fresh(keys)) }

  /**
   * A call begins, one iteration of its loop, a timeout or a repeated Finished makes a kept message go out
   * again, application data or an alert is written, or renegotiation is asked for.
   */
  datatype Act =
    | Begin(keys: WriteState)
    | Turn(h: Driver.Helpers, w: Write)
    | Again(i: nat, n: nat)
    | Records(n: nat)
    | AskRenegotiation(move: bool)

  /** What an iteration does to the sending side; `on` when the loop goes round again. */
  function Work(pc: Driver.Pc, on: bool, ret: int, prepared: bool, s: Sender, w: Write): (Sender, bool) {
    match pc
    case SendHello => Send(s, prepared, Message, ret, w)
    case SendCert => Send(s, prepared, Message, ret, w)
    case SendKeyExch => Send(s, prepared, Message, ret, w)
    case SendVerify => Send(s, prepared, Message, ret, w)
    case Change => var (s1, p) := Send(s, prepared, Ccs, ret, w); (if on then NewKeys(s1, w.keys) else s1, p)
    case Finish => Send(s, prepared, Message, ret, w)
    case GetHelloVerify => (if on then StopTimer(s) else s, prepared)
    case GetDone => (if on then StopTimer(s) else s, prepared)
    case GetFinished => (if on then StopTimer(s) else s, prepared)
    case Ok => (Renumber(s), prepared)
    case _ => (s, prepared)
  }

  function Perform(j: Joint, a: Act): Joint {
    match a
    case Begin(keys) =>
      if j.d.pc in {Driver.Ok, Driver.Before} && !j.d.renegotiate then Joint(Driver.Enter(j.d), false, Fresh(keys))
      else j.(d := Driver.Enter(j.d))
    case Turn(h, w) =>
      var (d, outcome) := Driver.Step(j.d, h);
      var (s, prepared) := Work(j.d.pc, outcome == GoOn, h.ret, j.prepared, j.s, w);
      Joint(d, prepared, s)
    case Again(i, n) => j.(s := Resend(j.s, i, n))
    case Records(n) => j.(s := Apply(j.s, NewRecords(n)))
    case AskRenegotiation(move) => j.(d := Driver.Perform(j.d, Driver.AskRenegotiation(move)))
  }

  function Run(j: Joint, acts: seq<Act>): Joint
    decreases |acts|
  {
    if acts == [] then j else Run(Perform(j, acts[0]), acts[1..])
  }

  // ---- Numbers ----

  /** Between the peer's ServerHelloDone, or Finished, and the change of epoch nothing older is kept. */
  predicate Settled(pc: Driver.Pc) { pc in {Driver.SendCert, Driver.SendKeyExch, Driver.SendVerify, Driver.Change} }

  /** Where a flush leads */
  predicate FlushesOut(d: Driver.State) {
    d.pc == Driver.Flush ==> d.next in {Driver.GetHello, Driver.GetTicket, Driver.GetFinished, Driver.Ok}
  }

  ghost predicate NumbersInv(j: Joint) { Sound(j.s, Settled(j.d.pc)) && FlushesOut(j.d) }

  /** Whether nothing older is kept after an iteration, by what the iteration does to the sending side. */
  predicate SettledAfter(pc: Driver.Pc, on: bool) {
    if pc == Driver.Change then !on
    else Settled(pc) || (on && pc in {Driver.GetHelloVerify, Driver.GetDone, Driver.GetFinished})
  }

  lemma WorkNumbers(pc: Driver.Pc, on: bool, ret: int, prepared: bool, s: Sender, w: Write)
    requires Sound(s, Settled(pc))
    ensures Sound(Work(pc, on, ret, prepared, s, w).0, SettledAfter(pc, on))
  {
    match pc {
      case SendHello => SendKeeps(s, false, prepared, Message, ret, w);
      case SendCert => SendKeeps(s, true, prepared, Message, ret, w);
      case SendKeyExch => SendKeeps(s, true, prepared, Message, ret, w);
      case SendVerify => SendKeeps(s, true, prepared, Message, ret, w);
      case Finish => SendKeeps(s, false, prepared, Message, ret, w);
      case Change =>
        SendKeeps(s, true, prepared, Ccs, ret, w);
        NewKeysKeeps(Send(s, prepared, Ccs, ret, w).0, w.keys);
      case _ =>
    }
  }

  /** The driver enters such a state only from another one, or on an answer of the peer. */
  predicate Settles(d: Driver.State, h: Driver.Helpers) {
    var (r, outcome) := Driver.Step(d, h);
    FlushesOut(r) && (Settled(r.pc) ==> SettledAfter(d.pc, outcome == GoOn))
  }

  lemma HelloSettles(d: Driver.State, h: Driver.Helpers)
    requires FlushesOut(d) && d.pc in {Driver.SendHello, Driver.GetHello, Driver.GetHelloVerify, Driver.GetCert}
    ensures Settles(d, h)
  {
  }

  lemma PeerSettles(d: Driver.State, h: Driver.Helpers)
    requires FlushesOut(d) && d.pc in {Driver.GetCertStatus, Driver.GetKeyExch, Driver.GetCertReq, Driver.GetDone}
    ensures Settles(d, h)
  {
  }

  lemma KeysSettle(d: Driver.State, h: Driver.Helpers)
    requires FlushesOut(d) && d.pc in {Driver.SendCert, Driver.SendKeyExch, Driver.SendVerify, Driver.Change}
    ensures Settles(d, h)
  {
  }

  lemma EndSettles(d: Driver.State, h: Driver.Helpers)
    requires FlushesOut(d) && d.pc in {Driver.Finish, Driver.Flush, Driver.GetTicket, Driver.GetFinished}
    ensures Settles(d, h)
  {
  }

  lemma StepSettles(d: Driver.State, h: Driver.Helpers)
    requires FlushesOut(d)
    ensures Settles(d, h)
  {
    match d.pc {
      case SendHello => HelloSettles(d, h);
      case GetHello => HelloSettles(d, h);
      case GetHelloVerify => HelloSettles(d, h);
      case GetCert => HelloSettles(d, h);
      case GetCertStatus => PeerSettles(d, h);
      case GetKeyExch => PeerSettles(d, h);
      case GetCertReq => PeerSettles(d, h);
      case GetDone => PeerSettles(d, h);
      case SendCert => KeysSettle(d, h);
      case SendKeyExch => KeysSettle(d, h);
      case SendVerify => KeysSettle(d, h);
      case Change => KeysSettle(d, h);
      case Finish => EndSettles(d, h);
      case Flush => EndSettles(d, h);
      case GetTicket => EndSettles(d, h);
      case GetFinished => EndSettles(d, h);
      case _ =>
    }
  }

  lemma TurnNumbers(j: Joint, h: Driver.Helpers, w: Write)
    requires NumbersInv(j)
    ensures NumbersInv(Perform(j, Turn(h, w)))
  {
    var on := Driver.Step(j.d, h).1 == GoOn;
    WorkNumbers(j.d.pc, on, h.ret, j.prepared, j.s, w);
    StepSettles(j.d, h);
    var r := Perform(j, Turn(h, w));
    SoundUnless(r.s, SettledAfter(j.d.pc, on), Settled(r.d.pc));
  }

  lemma ActNumbers(j: Joint, a: Act)
    requires NumbersInv(j)
    ensures NumbersInv(Perform(j, a))
  {
    match a
    case Begin(keys) => FreshIsSound(keys);
    case Turn(h, w) => TurnNumbers(j, h, w);
    case Again(i, n) => ResendKeeps(j.s, Settled(j.d.pc), i, n);
    case Records(n) => CountRecords(j.s, Settled(j.d.pc), n);
    case AskRenegotiation(move) =>
  }

  lemma {:induction false} RunNumbers(j: Joint, acts: seq<Act>)
    requires NumbersInv(j)
    ensures NumbersInv(Run(j, acts))
    decreases |acts|
  {
    if acts != [] {
      ActNumbers(j, acts[0]);
      RunNumbers(Perform(j, acts[0]), acts[1..]);
    }
  }

  /**
   * However the driver's helpers answer and whenever kept messages are sent again: as long as the counters
   * have room, every kept message is of the current epoch or the one before, and no number is used twice.
   */
  lemma NumbersNeverRepeat(keys: WriteState, acts: seq<Act>)
    requires Run(Start(keys), acts).s.room
    ensures Recent(Run(Start(keys), acts).s)
    ensures NoRepeats(Run(Start(keys), acts).s.c.log)
  {
    FreshIsSound(keys);
    RunNumbers(Start(keys), acts);
  }

  /** At any point of any run the whole queue may be sent again, over any links: that repeats no number either. */
  lemma WholeFlightNeverRepeats(keys: WriteState, acts: seq<Act>, links: nat -> Link)
    requires var s := Run(Start(keys), acts).s;
             s.room && CanResend(s.queue, links) && AllFit(s.c, FlightEvents(s.queue, links, 0))
    ensures var s := Run(Start(keys), acts).s;
            && AllPermitted(s.c, FlightEvents(s.queue, links, 0))
            && NoRepeats(WriteNumbers.Run(s.c, FlightEvents(s.queue, links, 0)).log)
  {
    FreshIsSound(keys);
    RunNumbers(Start(keys), acts);
    var j := Run(Start(keys), acts);
    FlightPermittedIff(j.s, links);
    FlightNeverRepeats(j.s, Settled(j.d.pc), links);
  }

  // ---- Order ----

  predicate Sends(pc: Driver.Pc) {
    pc in {Driver.SendHello, Driver.SendCert, Driver.SendKeyExch, Driver.SendVerify, Driver.Change, Driver.Finish}
  }

  /** The hello is being sent or waits for its answer: the flight before it may still be kept. */
  predicate Waiting(d: Driver.State) {
    || d.pc in {Driver.SendHello, Driver.GetHello, Driver.GetHelloVerify}
    || (d.pc == Driver.Flush && d.next == Driver.GetHello)
    || (d.pc in {Driver.GetTicket, Driver.GetFinished} && d.hit)
  }

  /** What is known of the order of sent_messages at each state. */
  function Level(d: Driver.State, prepared: bool): nat {
    if d.pc == Driver.SendHello && !prepared then 1
    else if Waiting(d) then 0
    else if d.pc in {Driver.SendCert, Driver.SendKeyExch, Driver.SendVerify} then 3
    else if d.pc == Driver.Change then (if prepared then 2 else 3)
    else if d.pc == Driver.Finish then (if prepared then 3 else 2)
    else 1
  }

  /** Where this handshake has sent a message */
  predicate HasSent(d: Driver.State, prepared: bool) {
    prepared || d.pc !in {Driver.Before, Driver.Connect, Driver.Renegotiate, Driver.SendHello, Driver.Ok}
  }

  predicate OrderInv(j: Joint) {
    && Ready(j.s, Level(j.d, j.prepared))
    && (HasSent(j.d, j.prepared) ==> Numbered(j.s))
    && (j.prepared ==> Sends(j.d.pc))
    && FlushesOut(j.d)
  }

  /** What is known after an iteration, by what it does to the sending side. */
  function LevelAfter(d: Driver.State, prepared: bool, sends: bool, on: bool): nat {
    if sends then (if d.pc == Driver.SendHello then 0 else if d.pc == Driver.Change then 2 else 3)
    else if on && d.pc in {Driver.GetHelloVerify, Driver.GetDone, Driver.GetFinished} then 3
    else Level(d, prepared)
  }

  /** The message of the state is, or has been, prepared. */
  predicate Goes(d: Driver.State, h: Driver.Helpers, prepared: bool, built: bool) {
    Sends(d.pc) && (prepared || built || h.ret > 0)
  }

  /** What an iteration leaves of the sending side: how much of its order is known, and that it has a number. */
  predicate WorkKeeps(j: Joint, on: bool, h: Driver.Helpers, w: Write) {
    var goes := Goes(j.d, h, j.prepared, w.built);
    var r := Work(j.d.pc, on, h.ret, j.prepared, j.s, w);
    && Ready(r.0, LevelAfter(j.d, j.prepared, goes, on))
    && (goes || (HasSent(j.d, j.prepared) && j.d.pc != Driver.Ok) ==> Numbered(r.0))
    && r.1 == (goes && h.ret <= 0)
  }

  lemma HelloWork(j: Joint, on: bool, h: Driver.Helpers, w: Write)
    requires OrderInv(j) && j.d.pc == Driver.SendHello && Goes(j.d, h, j.prepared, w.built)
    ensures WorkKeeps(j, on, h, w)
  {
    SendNumbers(j.s, j.prepared, Message, h.ret, w);
  }

  lemma ChangeWork(j: Joint, on: bool, h: Driver.Helpers, w: Write)
    requires OrderInv(j) && j.d.pc == Driver.Change && Goes(j.d, h, j.prepared, w.built)
    ensures WorkKeeps(j, on, h, w)
  {
    SendReady(j.s, j.prepared, Ccs, h.ret, w);
  }

  lemma MessageWork(j: Joint, on: bool, h: Driver.Helpers, w: Write)
    requires OrderInv(j) && Goes(j.d, h, j.prepared, w.built)
    requires j.d.pc != Driver.SendHello && j.d.pc != Driver.Change
    ensures WorkKeeps(j, on, h, w)
  {
    ReadyUnless(j.s, Level(j.d, j.prepared), if j.prepared then 3 else 2);
    SentMessage(j.d.pc, on, h.ret, j.prepared, j.s, w);
  }

  lemma SentMessage(pc: Driver.Pc, on: bool, ret: int, prepared: bool, s: Sender, w: Write)
    requires pc in {Driver.SendCert, Driver.SendKeyExch, Driver.SendVerify, Driver.Finish}
    requires (prepared || w.built || ret > 0) && Ready(s, if prepared then 3 else 2)
    ensures var r := Work(pc, on, ret, prepared, s, w); Ready(r.0, 3) && Numbered(r.0) && r.1 == (ret <= 0)
  {
    assert Work(pc, on, ret, prepared, s, w) == Send(s, prepared, Message, ret, w);
    SendReady(s, prepared, Message, ret, w);
  }

  /** Nothing is sent. */
  lemma OtherWork(j: Joint, on: bool, h: Driver.Helpers, w: Write)
    requires OrderInv(j) && !Goes(j.d, h, j.prepared, w.built)
    ensures WorkKeeps(j, on, h, w)
  {
    if j.d.pc in {Driver.GetHelloVerify, Driver.GetDone, Driver.GetFinished} { EmptiedReady(j.s); }
  }

  lemma WorkOrder(j: Joint, on: bool, h: Driver.Helpers, w: Write)
    requires OrderInv(j)
    ensures WorkKeeps(j, on, h, w)
  {
    if !Goes(j.d, h, j.prepared, w.built) {
      OtherWork(j, on, h, w);
    } else if j.d.pc == Driver.SendHello {
      HelloWork(j, on, h, w);
    } else if j.d.pc == Driver.Change {
      ChangeWork(j, on, h, w);
    } else {
      MessageWork(j, on, h, w);
    }
  }

  /** The next state asks for no more than the iteration provides. */
  predicate Covers(d: Driver.State, h: Driver.Helpers, prepared: bool, built: bool) {
    var (r, outcome) := Driver.Step(d, h);
    var goes := Goes(d, h, prepared, built);
    && Level(r, goes && h.ret <= 0) <= LevelAfter(d, prepared, goes, outcome == GoOn)
    && (HasSent(r, goes && h.ret <= 0) ==> goes || (HasSent(d, prepared) && d.pc != Driver.Ok))
    && (goes && h.ret <= 0 ==> r.pc == d.pc)
  }

  lemma HelloOrder(d: Driver.State, h: Driver.Helpers, prepared: bool, built: bool)
    requires d.pc in {Driver.SendHello, Driver.GetHello, Driver.GetHelloVerify, Driver.GetCert}
    requires FlushesOut(d) && (prepared ==> Sends(d.pc))
    ensures Covers(d, h, prepared, built)
  {
  }

  lemma PeerOrder(d: Driver.State, h: Driver.Helpers, prepared: bool, built: bool)
    requires d.pc in {Driver.GetCertStatus, Driver.GetKeyExch, Driver.GetCertReq, Driver.GetDone}
    requires FlushesOut(d) && (prepared ==> Sends(d.pc))
    ensures Covers(d, h, prepared, built)
  {
  }

  lemma KeysOrder(d: Driver.State, h: Driver.Helpers, prepared: bool, built: bool)
    requires d.pc in {Driver.SendCert, Driver.SendKeyExch, Driver.SendVerify, Driver.Change}
    requires FlushesOut(d) && (prepared ==> Sends(d.pc))
    ensures Covers(d, h, prepared, built)
  {
  }

  lemma EndOrder(d: Driver.State, h: Driver.Helpers, prepared: bool, built: bool)
    requires d.pc in {Driver.Finish, Driver.Flush, Driver.GetTicket, Driver.GetFinished}
    requires FlushesOut(d) && (prepared ==> Sends(d.pc))
    ensures Covers(d, h, prepared, built)
  {
  }

  lemma OtherOrder(d: Driver.State, h: Driver.Helpers, prepared: bool, built: bool)
    requires d.pc in {Driver.Before, Driver.Connect, Driver.Renegotiate, Driver.Ok}
    requires FlushesOut(d) && (prepared ==> Sends(d.pc))
    ensures Covers(d, h, prepared, built)
  {
  }

  lemma StepOrder(d: Driver.State, h: Driver.Helpers, prepared: bool, built: bool)
    requires FlushesOut(d) && (prepared ==> Sends(d.pc))
    ensures Covers(d, h, prepared, built)
  {
    match d.pc {
      case SendHello => HelloOrder(d, h, prepared, built);
      case GetHello => HelloOrder(d, h, prepared, built);
      case GetHelloVerify => HelloOrder(d, h, prepared, built);
      case GetCert => HelloOrder(d, h, prepared, built);
      case GetCertStatus => PeerOrder(d, h, prepared, built);
      case GetKeyExch => PeerOrder(d, h, prepared, built);
      case GetCertReq => PeerOrder(d, h, prepared, built);
      case GetDone => PeerOrder(d, h, prepared, built);
      case SendCert => KeysOrder(d, h, prepared, built);
      case SendKeyExch => KeysOrder(d, h, prepared, built);
      case SendVerify => KeysOrder(d, h, prepared, built);
      case Change => KeysOrder(d, h, prepared, built);
      case Finish => EndOrder(d, h, prepared, built);
      case Flush => EndOrder(d, h, prepared, built);
      case GetTicket => EndOrder(d, h, prepared, built);
      case GetFinished => EndOrder(d, h, prepared, built);
      case Before => OtherOrder(d, h, prepared, built);
      case Connect => OtherOrder(d, h, prepared, built);
      case Renegotiate => OtherOrder(d, h, prepared, built);
      case Ok => OtherOrder(d, h, prepared, built);
    }
  }

  lemma TurnOrder(j: Joint, h: Driver.Helpers, w: Write)
    requires OrderInv(j)
    ensures OrderInv(Perform(j, Turn(h, w)))
  {
    var on, goes := Driver.Step(j.d, h).1 == GoOn, Goes(j.d, h, j.prepared, w.built);
    WorkOrder(j, on, h, w);
    StepOrder(j.d, h, j.prepared, w.built);
    StepSettles(j.d, h);
    var r := Perform(j, Turn(h, w));
    ReadyUnless(r.s, LevelAfter(j.d, j.prepared, goes, on), Level(r.d, r.prepared));
  }

  lemma BeginOrder(j: Joint, keys: WriteState)
    requires OrderInv(j)
    ensures OrderInv(Perform(j, Begin(keys)))
  {
  }

  lemma ActOrder(j: Joint, a: Act)
    requires OrderInv(j)
    ensures OrderInv(Perform(j, a))
  {
    match a
    case Begin(keys) => BeginOrder(j, keys);
    case Turn(h, w) => TurnOrder(j, h, w);
    case _ =>
  }

  lemma {:induction false} RunOrder(j: Joint, acts: seq<Act>)
    requires OrderInv(j)
    ensures OrderInv(Run(j, acts))
    decreases |acts|
  {
    if acts != [] {
      ActOrder(j, acts[0]);
      RunOrder(Perform(j, acts[0]), acts[1..]);
    }
  }

  /** Except while a hello is out, sent_messages is in the order of sending, below message number 0x8000. */
  lemma InOrderUnlessWaiting(keys: WriteState, acts: seq<Act>)
    requires Run(Start(keys), acts).s.short && !Waiting(Run(Start(keys), acts).d)
    ensures InOrder(Run(Start(keys), acts).s)
  {
    RunOrder(Start(keys), acts);
  }

  /** Message numbers that are short have been so before; what is not sent leaves the order as it is. */
  lemma WorkShort(pc: Driver.Pc, on: bool, ret: int, prepared: bool, s: Sender, w: Write)
    requires InOrder(s) && Work(pc, on, ret, prepared, s, w).0.short
    ensures s.short
    ensures !Sends(pc) || (!prepared && !w.built && ret <= 0) || (pc == Driver.SendHello && prepared) ==>
              InOrder(Work(pc, on, ret, prepared, s, w).0)
  {
  }

  /** Every message but a hello finds the keys below its own. */
  lemma KeptInOrder(j: Joint, h: Driver.Helpers, w: Write)
    requires OrderInv(j) && InOrder(j.s) && j.d.pc != Driver.SendHello && Perform(j, Turn(h, w)).s.short
    ensures InOrder(Perform(j, Turn(h, w)).s)
  {
    var on := Driver.Step(j.d, h).1 == GoOn;
    if Goes(j.d, h, j.prepared, w.built) {
      WorkOrder(j, on, h, w);
    } else {
      WorkShort(j.d.pc, on, h.ret, j.prepared, j.s, w);
    }
  }

  lemma HelloInOrderIff(j: Joint, h: Driver.Helpers, w: Write)
    requires OrderInv(j) && InOrder(j.s) && j.d.pc == Driver.SendHello && Perform(j, Turn(h, w)).s.short
    ensures InOrder(Perform(j, Turn(h, w)).s) <==>
              j.prepared || (!w.built && h.ret <= 0) || Below(j.s, 2 * j.s.next)
  {
    if !j.prepared && (w.built || h.ret > 0) {
      PreparedInOrderIff(j.s, Outcoming(Message, w));
      ShortKey(j.s.next, false);
    }
  }

  /**
   * An act puts sent_messages out of order exactly when it prepares the hello of a new handshake while a
   * message with a higher key is kept, as the last flight of a resumed handshake is.
   */
  lemma DisorderIff(keys: WriteState, acts: seq<Act>, a: Act)
    requires var j := Run(Start(keys), acts); InOrder(j.s) && Perform(j, a).s.short
    ensures var j := Run(Start(keys), acts);
            !InOrder(Perform(j, a).s) <==>
              a.Turn? && j.d.pc == Driver.SendHello && !j.prepared && (a.w.built || a.h.ret > 0)
              && !Below(j.s, 2 * j.s.next)
  {
    var j := Run(Start(keys), acts);
    RunOrder(Start(keys), acts);
    if a.Turn? {
      if j.d.pc == Driver.SendHello { HelloInOrderIff(j, a.h, a.w); } else { KeptInOrder(j, a.h, a.w); }
    }
  }

  lemma {:induction false} RunConcat(j: Joint, acts: seq<Act>, more: seq<Act>)
    ensures Run(j, acts + more) == Run(Run(j, acts), more)
    decreases |acts|
  {
    if acts == [] {
      assert acts + more == more;
    } else {
      assert (acts + more)[1..] == acts[1..] + more;
      RunConcat(Perform(j, acts[0]), acts[1..], more);
    }
  }

  lemma RunOneMore(j: Joint, acts: seq<Act>, a: Act)
    ensures Run(j, acts + [a]) == Perform(Run(j, acts), a)
  {
    RunConcat(j, acts, [a]);
    assert [a][1..] == [];
  }

  /** Everything succeeds, and the session is resumed. */
  function Smooth(w: Write): Act { Turn(Driver.FINE, w) }

  /** A first handshake, up to the peer's Finished */
  lemma ResumedHandshake(keys: WriteState, w: Write) returns (acts: seq<Act>)
    ensures var j := Run(Start(keys), acts);
            && j.d.pc == Driver.Change && j.d.hit && !j.d.renegotiate && !j.prepared
            && j.s.queue == [] && j.s.next == 1 && j.s.short
  {
    acts := [Begin(keys)];
    assert acts[1..] == [];
    RunOneMore(Start(keys), acts, Smooth(w));
    acts := acts + [Smooth(w)];
    RunOneMore(Start(keys), acts, Smooth(w));
    acts := acts + [Smooth(w)];
    assert Run(Start(keys), acts).d.pc == Driver.GetHello && Run(Start(keys), acts).s.next == 1;
    RunOneMore(Start(keys), acts, Smooth(w));
    acts := acts + [Smooth(w)];
    RunOneMore(Start(keys), acts, Smooth(w));
    acts := acts + [Smooth(w)];
  }

  /** Its ChangeCipherSpec and Finished stay in the queue when it is reported. */
  lemma LastFlight(j: Joint, w: Write) returns (acts: seq<Act>)
    requires j.d.pc == Driver.Change && j.d.hit && !j.d.renegotiate && !j.prepared
    requires j.s.queue == [] && j.s.next == 1 && j.s.short
    ensures var r := Run(j, acts);
            && r.d.pc == Driver.Ok && !r.prepared && r.s.queue != [] && r.s.next == 0 && r.s.short
  {
    var changed := Perform(j, Smooth(w));
    ChangeDone(j, w);
    FinishDone(changed, w);
    OkDone(Perform(Perform(changed, Smooth(w)), Smooth(w)), w);
    acts := RunOfFour(j, Smooth(w));
  }

  lemma OkDone(j: Joint, w: Write)
    requires j.d.pc == Driver.Ok && !j.prepared && j.s.queue != [] && j.s.short
    ensures var r := Perform(j, Smooth(w));
            r.d.pc == Driver.Ok && !r.prepared && r.s.queue != [] && r.s.next == 0 && r.s.short
  {
  }

  lemma RunOfFour(j: Joint, a: Act) returns (acts: seq<Act>)
    ensures Run(j, acts) == Perform(Perform(Perform(Perform(j, a), a), a), a)
  {
    acts := [a];
    assert acts[1..] == [];
    RunOneMore(j, acts, a);
    acts := acts + [a];
    RunOneMore(j, acts, a);
    acts := acts + [a];
    RunOneMore(j, acts, a);
    acts := acts + [a];
  }

  lemma ChangeDone(j: Joint, w: Write)
    requires j.d.pc == Driver.Change && !j.prepared && j.s.queue == [] && j.s.next == 1 && j.s.short
    ensures var r := Perform(j, Smooth(w));
            r.d == j.d.(pc := Driver.Finish, events := r.d.events) && !r.prepared
            && r.s.queue != [] && r.s.next == 1 && r.s.short
  {
  }

  lemma FinishDone(j: Joint, w: Write)
    requires j.d.pc == Driver.Finish && j.d.hit && !j.prepared && j.s.queue != [] && j.s.next == 1 && j.s.short
    ensures var r := Perform(Perform(j, Smooth(w)), Smooth(w));
            r.d.pc == Driver.Ok && !r.prepared && r.s.queue != [] && r.s.short
  {
  }

  /** Renegotiation begins, up to the new hello */
  lemma AskAgain(j: Joint, w: Write) returns (acts: seq<Act>)
    requires j.d.pc == Driver.Ok && !j.prepared
    ensures var r := Run(j, acts); r.s == j.s && r.d.pc == Driver.SendHello && !r.prepared
  {
    acts := [AskRenegotiation(true)];
    assert acts[1..] == [];
    RunOneMore(j, acts, Begin(w.keys));
    acts := acts + [Begin(w.keys)];
    RunOneMore(j, acts, Smooth(w));
    acts := acts + [Smooth(w)];
  }

  /**
   * It happens: a session is resumed and the connection renegotiated. A timeout while the new hello waits for
   * its answer then sends that hello first and after it the ChangeCipherSpec and Finished of the handshake before.
   */
  lemma DisorderExample(keys: WriteState, w: Write) returns (acts: seq<Act>)
    ensures Run(Start(keys), acts).s.short && !InOrder(Run(Start(keys), acts).s)
  {
    acts := ResumedHandshake(keys, w);
    var more := LastFlight(Run(Start(keys), acts), w);
    RunConcat(Start(keys), acts, more);
    acts := acts + more;
    InOrderUnlessWaiting(keys, acts);
    more := AskAgain(Run(Start(keys), acts), w);
    RunConcat(Start(keys), acts, more);
    acts := acts + more;
    var j := Run(Start(keys), acts);
    assert j.s.queue[0].key >= 2 * j.s.next;
    DisorderIff(keys, acts, Smooth(w));
    RunOneMore(Start(keys), acts, Smooth(w));
    acts := acts + [Smooth(w)];
  }
}
