/**
 * The server's driver together with its sending side, over all runs: which messages sent_messages holds when,
 * that their order is that of sending, and that no record number is used twice.
 */
module ServerFlights {
  import opened FragmentPlan
  import opened HandshakeEvents
  import opened HandshakeWriter
  import opened SendOrder
  import opened WriteNumbers
  import opened Flights
  import Driver = ServerDriver

  /** `prepared`: the message of this state has its number and is kept, but is not yet written. */
  datatype Joint = Joint(d: Driver.State, prepared: bool, s: Sender)

  function Start(keys: WriteState): Joint { Joint(Driver.INITIAL, false, Fresh(keys)) }

  /**
   * A call begins, one iteration of its loop, a timeout or a repeated Finished makes a kept message go out
   * again, application data or an alert is written, renegotiation is asked for, or a ClientHello arrives.
   */
  datatype Act =
    | Begin(keys: WriteState)
    | Turn(h: Driver.Helpers, w: Write)
    | Again(i: nat, n: nat)
    | Records(n: nat)
    | AskRenegotiation(move: bool)
    | HelloArrives

  predicate Sends(pc: Driver.Pc) {
    pc in {Driver.SendHelloRequest, Driver.SendHelloVerify, Driver.SendHello, Driver.SendCert, Driver.SendKeyExch,
           Driver.SendCertReq, Driver.SendDone, Driver.SendTicket, Driver.Change, Driver.Finish}
  }

  /** The state's message is not skipped, and nothing fails before it. */
  predicate Called(pc: Driver.Pc, h: Driver.Helpers) {
    && Sends(pc)
    && (pc == Driver.SendCert ==> !h.anonymous)
    && (pc in {Driver.SendKeyExch, Driver.SendCertReq} ==> h.needed)
    && (pc == Driver.Change ==> h.sound)
  }

  /** HelloRequest and HelloVerifyRequest are not kept. */
  function KindOf(pc: Driver.Pc): Sending {
    if pc in {Driver.SendHelloRequest, Driver.SendHelloVerify} then Unkept
    else if pc == Driver.Change then Ccs
    else Message
  }

  /** What an iteration does to the sending side; `on` when the loop goes round again. */
  function Work(pc: Driver.Pc, on: bool, h: Driver.Helpers, prepared: bool, s: Sender, w: Write): (Sender, bool) {
    if Called(pc, h) then
      var (s1, p) := Send(s, prepared, KindOf(pc), h.ret, w);
      (if on && pc == Driver.Change then NewKeys(s1, w.keys) else s1, p)
    else
      (if Answers(pc, on, h) then StopTimer(s) else if pc == Driver.Ok then Renumber(s) else s,
       pc == Driver.Change && prepared)
  }

  /** The peer's hello, its second hello, or its Finished has come. */
  predicate Answers(pc: Driver.Pc, on: bool, h: Driver.Helpers) {
    on && (pc in {Driver.GetHello, Driver.GetFinished} || (pc == Driver.GetCert && h.ret == 2))
  }

  function Perform(j: Joint, a: Act): Joint {
    match a
    case Begin(keys) =>
      if j.d.pc in {Driver.Ok, Driver.Before} && j.d.renegotiate == 0 then Joint(Driver.Enter(j.d), false, Fresh(keys))
      else j.(d := Driver.Enter(j.d))
    case Turn(h, w) =>
      var (d, outcome) := Driver.Step(j.d, h);
      var (s, prepared) := Work(j.d.pc, outcome == GoOn, h, j.prepared, j.s, w);
      Joint(d, prepared, s)
    case Again(i, n) => j.(s := Resend(j.s, i, n))
    case Records(n) => j.(s := Apply(j.s, NewRecords(n)))
    case AskRenegotiation(move) => j.(d := Driver.Perform(j.d, Driver.AskRenegotiation(move)))
    case HelloArrives => j.(d := Driver.Perform(j.d, Driver.HelloArrives))
  }

  function Run(j: Joint, acts: seq<Act>): Joint
    decreases |acts|
  {
    if acts == [] then j else Run(Perform(j, acts[0]), acts[1..])
  }

  // ---- Numbers ----

  /** Between the client's hello, or its Finished, and the change of epoch nothing older is kept. */
  predicate Settled(pc: Driver.Pc) { pc in {Driver.SendHello, Driver.SendTicket, Driver.Change} }

  /** Where a flush leads */
  predicate FlushesOut(d: Driver.State) {
    d.pc == Driver.Flush ==>
      d.next in {Driver.HelloRequestSent, Driver.GetHello, Driver.GetCert, Driver.GetFinished, Driver.Ok}
  }

  ghost predicate NumbersInv(j: Joint) { Sound(j.s, Settled(j.d.pc)) && FlushesOut(j.d) }

  /** Whether nothing older is kept after an iteration, by what the iteration does to the sending side. */
  predicate SettledAfter(pc: Driver.Pc, on: bool) {
    if pc == Driver.Change then !on else Settled(pc) || (on && pc in {Driver.GetHello, Driver.GetFinished})
  }

  lemma WorkNumbers(pc: Driver.Pc, on: bool, h: Driver.Helpers, prepared: bool, s: Sender, w: Write)
    requires Sound(s, Settled(pc)) && (pc == Driver.Change && on ==> h.sound)
    ensures Sound(Work(pc, on, h, prepared, s, w).0, SettledAfter(pc, on))
  {
    if Called(pc, h) {
      SendKeeps(s, Settled(pc), prepared, KindOf(pc), h.ret, w);
      if pc == Driver.Change && on { NewKeysKeeps(Send(s, prepared, Ccs, h.ret, w).0, w.keys); }
    }
  }

  /** The driver enters such a state only from another one, or on an answer of the peer. */
  predicate Settles(d: Driver.State, h: Driver.Helpers) {
    var (r, outcome) := Driver.Step(d, h);
    && FlushesOut(r)
    && (Settled(r.pc) ==> SettledAfter(d.pc, outcome == GoOn))
    && (d.pc == Driver.Change && outcome == GoOn ==> h.sound)
  }

  lemma StartSettles(d: Driver.State, h: Driver.Helpers)
    requires FlushesOut(d)
    requires d.pc in {Driver.Before, Driver.Accept, Driver.Renegotiate, Driver.SendHelloRequest,
                      Driver.HelloRequestSent}
    ensures Settles(d, h)
  {
  }

  lemma HelloSettles(d: Driver.State, h: Driver.Helpers)
    requires FlushesOut(d)
    requires d.pc in {Driver.GetHello, Driver.SendHelloVerify, Driver.SendHello, Driver.SendCert}
    ensures Settles(d, h)
  {
  }

  lemma KeysSettle(d: Driver.State, h: Driver.Helpers)
    requires FlushesOut(d)
    requires d.pc in {Driver.SendCertStatus, Driver.SendKeyExch, Driver.SendCertReq, Driver.SendDone,
                      Driver.GetCert, Driver.GetKeyExch}
    ensures Settles(d, h)
  {
  }

  lemma EndSettles(d: Driver.State, h: Driver.Helpers)
    requires FlushesOut(d)
    requires d.pc in {Driver.GetVerify, Driver.GetFinished, Driver.SendTicket, Driver.Change}
    ensures Settles(d, h)
  {
  }

  lemma LastSettles(d: Driver.State, h: Driver.Helpers)
    requires FlushesOut(d)
    requires d.pc in {Driver.Finish, Driver.Flush, Driver.Ok}
    ensures Settles(d, h)
  {
  }

  lemma StepSettles(d: Driver.State, h: Driver.Helpers)
    requires FlushesOut(d)
    ensures Settles(d, h)
  {
    match d.pc {
      case Before => StartSettles(d, h);
      case Accept => StartSettles(d, h);
      case Renegotiate => StartSettles(d, h);
      case SendHelloRequest => StartSettles(d, h);
      case HelloRequestSent => StartSettles(d, h);
      case GetHello => HelloSettles(d, h);
      case SendHelloVerify => HelloSettles(d, h);
      case SendHello => HelloSettles(d, h);
      case SendCert => HelloSettles(d, h);
      case SendCertStatus => KeysSettle(d, h);
      case SendKeyExch => KeysSettle(d, h);
      case SendCertReq => KeysSettle(d, h);
      case SendDone => KeysSettle(d, h);
      case GetCert => KeysSettle(d, h);
      case GetKeyExch => KeysSettle(d, h);
      case GetVerify => EndSettles(d, h);
      case GetFinished => EndSettles(d, h);
      case SendTicket => EndSettles(d, h);
      case Change => EndSettles(d, h);
      case Finish => LastSettles(d, h);
      case Flush => LastSettles(d, h);
      case Ok => LastSettles(d, h);
    }
  }

  lemma ActNumbers(j: Joint, a: Act)
    requires NumbersInv(j)
    ensures NumbersInv(Perform(j, a))
  {
    match a
    case Begin(keys) => FreshIsSound(keys);
    case Turn(h, w) => TurnNumbers(j, h, w);
    case Again(i, n) => ResendKeeps(j.s, Settled(j.d.pc), i, n);
    case Records(n) => CountRecords(j.s, Settled(j.d.pc), n);
    case AskRenegotiation(move) =>
    case HelloArrives =>
  }

  lemma TurnNumbers(j: Joint, h: Driver.Helpers, w: Write)
    requires NumbersInv(j)
    ensures NumbersInv(Perform(j, Turn(h, w)))
  {
    var on := Driver.Step(j.d, h).1 == GoOn;
    StepSettles(j.d, h);
    WorkNumbers(j.d.pc, on, h, j.prepared, j.s, w);
    var r := Perform(j, Turn(h, w));
    SoundUnless(r.s, SettledAfter(j.d.pc, on), Settled(r.d.pc));
  }

  lemma {:induction false} RunNumbers(j: Joint, acts: seq<Act>)
    requires NumbersInv(j)
    ensures NumbersInv(Run(j, acts))
    decreases |acts|
  {
    if acts != [] {
      ActNumbers(j, acts[0]);
      RunNumbers(Perform(j, acts[0]), acts[1..]);
    }
  }

  /**
   * However the driver's helpers answer and whenever kept messages are sent again: as long as the counters
   * have room, every kept message is of the current epoch or the one before, and no number is used twice.
   */
  lemma NumbersNeverRepeat(keys: WriteState, acts: seq<Act>)
    requires Run(Start(keys), acts).s.room
    ensures Recent(Run(Start(keys), acts).s)
    ensures NoRepeats(Run(Start(keys), acts).s.c.log)
  {
    FreshIsSound(keys);
    RunNumbers(Start(keys), acts);
  }

  /** At any point of any run the whole queue may be sent again, over any links: that repeats no number either. */
  lemma WholeFlightNeverRepeats(keys: WriteState, acts: seq<Act>, links: nat -> Link)
    requires var s := Run(Start(keys), acts).s;
             s.room && CanResend(s.queue, links) && AllFit(s.c, FlightEvents(s.queue, links, 0))
    ensures var s := Run(Start(keys), acts).s;
            && AllPermitted(s.c, FlightEvents(s.queue, links, 0))
            && NoRepeats(WriteNumbers.Run(s.c, FlightEvents(s.queue, links, 0)).log)
  {
    FreshIsSound(keys);
    RunNumbers(Start(keys), acts);
    var j := Run(Start(keys), acts);
    FlightPermittedIff(j.s, links);
    FlightNeverRepeats(j.s, Settled(j.d.pc), links);
  }

  // ---- Order ----

  /** What is known of the order of sent_messages at each state. */
  function Level(d: Driver.State, prepared: bool): nat {
    if d.pc == Driver.Change then (if prepared then 2 else 3)
    else if d.pc == Driver.Finish then (if prepared then 3 else 2)
    else if d.pc == Driver.SendHello then (if prepared then 3 else 1)
    else if d.pc in {Driver.SendCert, Driver.SendCertStatus, Driver.SendKeyExch, Driver.SendCertReq,
                     Driver.SendDone, Driver.SendTicket} then 3
    else 1
  }

  /** Where this handshake has sent its ServerHello */
  predicate HasSent(d: Driver.State, prepared: bool) {
    || (d.pc == Driver.SendHello && prepared)
    || d.pc in {Driver.SendCert, Driver.SendCertStatus, Driver.SendKeyExch, Driver.SendCertReq, Driver.SendDone,
                Driver.GetCert, Driver.GetKeyExch, Driver.GetVerify, Driver.GetFinished, Driver.SendTicket,
                Driver.Change, Driver.Finish}
    || (d.pc == Driver.Flush && d.next in {Driver.GetCert, Driver.GetFinished})
  }

  predicate OrderInv(j: Joint) {
    && Ready(j.s, Level(j.d, j.prepared))
    && (HasSent(j.d, j.prepared) ==> Numbered(j.s))
    && (j.d.pc == Driver.SendHello && !j.prepared ==> j.s.queue == [])
    && (j.prepared ==> Sends(j.d.pc))
    && FlushesOut(j.d)
  }

  /** The message of the state is, or has been, prepared. */
  predicate Goes(d: Driver.State, h: Driver.Helpers, prepared: bool, built: bool) {
    Called(d.pc, h) && (prepared || built || h.ret > 0)
  }

  /** What is known after an iteration, by what it does to the sending side. */
  function LevelAfter(d: Driver.State, prepared: bool, goes: bool, on: bool): nat {
    if goes then (if KindOf(d.pc).Unkept? then 1 else if d.pc == Driver.Change then 2 else 3)
    else if on && d.pc == Driver.GetFinished then 3
    else Level(d, prepared)
  }

  predicate SentAfter(d: Driver.State, prepared: bool, goes: bool) {
    (goes && !KindOf(d.pc).Unkept?) || (HasSent(d, prepared) && d.pc != Driver.Ok)
  }

  function PreparedAfter(d: Driver.State, h: Driver.Helpers, prepared: bool, goes: bool): bool {
    if goes then h.ret <= 0 else d.pc == Driver.Change && !h.sound && prepared
  }

  /** What an iteration leaves of the sending side: how much of its order is known, and that it has a number. */
  predicate WorkKeeps(j: Joint, on: bool, h: Driver.Helpers, w: Write) {
    var goes := Goes(j.d, h, j.prepared, w.built);
    var r := Work(j.d.pc, on, h, j.prepared, j.s, w);
    && Ready(r.0, LevelAfter(j.d, j.prepared, goes, on))
    && (SentAfter(j.d, j.prepared, goes) ==> Numbered(r.0))
    && ((j.d.pc == Driver.SendHello && !goes) || (on && j.d.pc == Driver.GetHello) ==> r.0.queue == [])
    && r.1 == PreparedAfter(j.d, h, j.prepared, goes)
  }

  lemma HelloWork(j: Joint, on: bool, h: Driver.Helpers, w: Write)
    requires OrderInv(j) && j.d.pc == Driver.SendHello && Goes(j.d, h, j.prepared, w.built)
    ensures WorkKeeps(j, on, h, w)
  {
    FirstReady(j.s, j.prepared, h.ret, w);
  }

  /** A first message is in order whatever its number. */
  lemma FirstReady(s: Sender, prepared: bool, ret: int, w: Write)
    requires if prepared then Ready(s, 3) else Ready(s, 1) && s.queue == []
    requires prepared || w.built || ret > 0
    ensures Ready(Send(s, prepared, Message, ret, w).0, 3)
  {
    if !prepared { FirstPrepared(s, Outcoming(Message, w)); }
  }

  lemma FirstPrepared(s: Sender, x: Outgoing)
    requires x.Valid() && x.kind.Message? && Ready(s, 1) && s.queue == []
    ensures Ready(Prepared(s, x), 3)
  {
    if s.short {
      PreparedInOrderIff(s, x);
      ShortKey(s.next, false);
    }
  }

  lemma UnkeptWork(j: Joint, on: bool, h: Driver.Helpers, w: Write)
    requires OrderInv(j) && KindOf(j.d.pc).Unkept? && Goes(j.d, h, j.prepared, w.built)
    ensures WorkKeeps(j, on, h, w)
  {
  }

  lemma SendWork(j: Joint, on: bool, h: Driver.Helpers, w: Write)
    requires OrderInv(j) && Goes(j.d, h, j.prepared, w.built)
    requires !KindOf(j.d.pc).Unkept? && j.d.pc != Driver.SendHello
    ensures WorkKeeps(j, on, h, w)
  {
    ReadyUnless(j.s, Level(j.d, j.prepared), if (j.d.pc == Driver.Change) == j.prepared then 2 else 3);
    SentKept(j.d.pc, on, h, j.prepared, j.s, w);
  }

  lemma SentKept(pc: Driver.Pc, on: bool, h: Driver.Helpers, prepared: bool, s: Sender, w: Write)
    requires Called(pc, h) && !KindOf(pc).Unkept? && (prepared || w.built || h.ret > 0)
    requires Ready(s, if (pc == Driver.Change) == prepared then 2 else 3)
    ensures var r := Work(pc, on, h, prepared, s, w);
            Ready(r.0, if pc == Driver.Change then 2 else 3) && Numbered(r.0) && r.1 == (h.ret <= 0)
  {
    SendReady(s, prepared, KindOf(pc), h.ret, w);
  }

  /** Nothing was prepared, and nothing is sent. */
  lemma HeldWork(j: Joint, on: bool, h: Driver.Helpers, w: Write)
    requires OrderInv(j) && Called(j.d.pc, h) && !j.prepared && !w.built && h.ret <= 0
    ensures WorkKeeps(j, on, h, w)
  {
  }

  lemma WaitWork(j: Joint, on: bool, h: Driver.Helpers, w: Write)
    requires OrderInv(j) && !Called(j.d.pc, h)
    ensures WorkKeeps(j, on, h, w)
  {
    if j.d.pc == Driver.GetFinished { EmptiedReady(j.s); }
  }

  lemma WorkOrder(j: Joint, on: bool, h: Driver.Helpers, w: Write)
    requires OrderInv(j)
    ensures WorkKeeps(j, on, h, w)
  {
    if !Called(j.d.pc, h) {
      WaitWork(j, on, h, w);
    } else if !Goes(j.d, h, j.prepared, w.built) {
      HeldWork(j, on, h, w);
    } else if j.d.pc == Driver.SendHello {
      HelloWork(j, on, h, w);
    } else if KindOf(j.d.pc).Unkept? {
      UnkeptWork(j, on, h, w);
    } else {
      SendWork(j, on, h, w);
    }
  }

  /** The next state asks for no more than the iteration provides. */
  predicate Covers(d: Driver.State, h: Driver.Helpers, prepared: bool, built: bool) {
    var (r, outcome) := Driver.Step(d, h);
    var goes := Goes(d, h, prepared, built);
    var p := PreparedAfter(d, h, prepared, goes);
    && Level(r, p) <= LevelAfter(d, prepared, goes, outcome == GoOn)
    && (HasSent(r, p) ==> SentAfter(d, prepared, goes))
    && (p ==> r.pc == d.pc)
    && (r.pc == Driver.SendHello && !p ==>
          (d.pc == Driver.GetHello && outcome == GoOn) || (d.pc == Driver.SendHello && !goes))
  }

  lemma StartOrder(d: Driver.State, h: Driver.Helpers, prepared: bool, built: bool)
    requires FlushesOut(d) && (prepared ==> Sends(d.pc))
    requires d.pc in {Driver.Before, Driver.Accept, Driver.Renegotiate, Driver.SendHelloRequest,
                      Driver.HelloRequestSent}
    ensures Covers(d, h, prepared, built)
  {
  }

  lemma HelloOrder(d: Driver.State, h: Driver.Helpers, prepared: bool, built: bool)
    requires FlushesOut(d) && (prepared ==> Sends(d.pc))
    requires d.pc in {Driver.GetHello, Driver.SendHelloVerify, Driver.SendHello, Driver.SendCert}
    ensures Covers(d, h, prepared, built)
  {
  }

  lemma KeysOrder(d: Driver.State, h: Driver.Helpers, prepared: bool, built: bool)
    requires FlushesOut(d) && (prepared ==> Sends(d.pc))
    requires d.pc in {Driver.SendCertStatus, Driver.SendKeyExch, Driver.SendCertReq, Driver.SendDone,
                      Driver.GetCert, Driver.GetKeyExch}
    ensures Covers(d, h, prepared, built)
  {
  }

  lemma EndOrder(d: Driver.State, h: Driver.Helpers, prepared: bool, built: bool)
    requires FlushesOut(d) && (prepared ==> Sends(d.pc))
    requires d.pc in {Driver.GetVerify, Driver.GetFinished, Driver.SendTicket, Driver.Change}
    ensures Covers(d, h, prepared, built)
  {
  }

  lemma LastOrder(d: Driver.State, h: Driver.Helpers, prepared: bool, built: bool)
    requires FlushesOut(d) && (prepared ==> Sends(d.pc))
    requires d.pc in {Driver.Finish, Driver.Flush, Driver.Ok}
    ensures Covers(d, h, prepared, built)
  {
  }

  lemma StepOrder(d: Driver.State, h: Driver.Helpers, prepared: bool, built: bool)
    requires FlushesOut(d) && (prepared ==> Sends(d.pc))
    ensures Covers(d, h, prepared, built)
  {
    match d.pc {
      case Before => StartOrder(d, h, prepared, built);
      case Accept => StartOrder(d, h, prepared, built);
      case Renegotiate => StartOrder(d, h, prepared, built);
      case SendHelloRequest => StartOrder(d, h, prepared, built);
      case HelloRequestSent => StartOrder(d, h, prepared, built);
      case GetHello => HelloOrder(d, h, prepared, built);
      case SendHelloVerify => HelloOrder(d, h, prepared, built);
      case SendHello => HelloOrder(d, h, prepared, built);
      case SendCert => HelloOrder(d, h, prepared, built);
      case SendCertStatus => KeysOrder(d, h, prepared, built);
      case SendKeyExch => KeysOrder(d, h, prepared, built);
      case SendCertReq => KeysOrder(d, h, prepared, built);
      case SendDone => KeysOrder(d, h, prepared, built);
      case GetCert => KeysOrder(d, h, prepared, built);
      case GetKeyExch => KeysOrder(d, h, prepared, built);
      case GetVerify => EndOrder(d, h, prepared, built);
      case GetFinished => EndOrder(d, h, prepared, built);
      case SendTicket => EndOrder(d, h, prepared, built);
      case Change => EndOrder(d, h, prepared, built);
      case Finish => LastOrder(d, h, prepared, built);
      case Flush => LastOrder(d, h, prepared, built);
      case Ok => LastOrder(d, h, prepared, built);
    }
  }

  lemma TurnOrder(j: Joint, h: Driver.Helpers, w: Write)
    requires OrderInv(j)
    ensures OrderInv(Perform(j, Turn(h, w)))
  {
    var (d, outcome) := Driver.Step(j.d, h);
    var goes := Goes(j.d, h, j.prepared, w.built);
    WorkOrder(j, outcome == GoOn, h, w);
    StepOrder(j.d, h, j.prepared, w.built);
    StepSettles(j.d, h);
    ReadyUnless(Work(j.d.pc, outcome == GoOn, h, j.prepared, j.s, w).0,
                LevelAfter(j.d, j.prepared, goes, outcome == GoOn),
                Level(d, PreparedAfter(j.d, h, j.prepared, goes)));
  }

  lemma BeginOrder(j: Joint, keys: WriteState)
    requires OrderInv(j)
    ensures OrderInv(Perform(j, Begin(keys)))
  {
  }

  lemma ActOrder(j: Joint, a: Act)
    requires OrderInv(j)
    ensures OrderInv(Perform(j, a))
  {
    match a
    case Begin(keys) => BeginOrder(j, keys);
    case Turn(h, w) => TurnOrder(j, h, w);
    case _ =>
  }

  lemma {:induction false} RunOrder(j: Joint, acts: seq<Act>)
    requires OrderInv(j)
    ensures OrderInv(Run(j, acts))
    decreases |acts|
  {
    if acts != [] {
      ActOrder(j, acts[0]);
      RunOrder(Perform(j, acts[0]), acts[1..]);
    }
  }

  /**
   * On every run, below message number 0x8000, the server's sent_messages holds what was kept since it was
   * last emptied, all of it, in the order of sending.
   */
  lemma AlwaysInOrder(keys: WriteState, acts: seq<Act>)
    requires Run(Start(keys), acts).s.short
    ensures InOrder(Run(Start(keys), acts).s)
  {
    RunOrder(Start(keys), acts);
  }
}
