/**
 * What a server's handshake consists of: the messages read and sent since SSL_CB_HANDSHAKE_START, written down
 * as the flights of the protocol, and the proof that dtls1_accept (d1_srvr.c) completes no other handshake.
 */
module ServerTrace {
  import opened HandshakeEvents
  import opened ServerDriver

  /** A message helper that came to its end, or a flush that was left; with what the driver learns from it. */
  datatype Item =
    | SentHelloRequest
    | GotHello(resumed: bool, verify: bool)
    | SentVerifyRequest
    | SentHello(ticket: bool)
    | NoCertificate                       // an anonymous cipher suite
    | SentCertificate(status: bool)
    | SentStatus
    | KeyExchange(sent: bool)
    | CertRequest(sent: bool)
    | SentDone
    | GotSecondHello
    | GotCertificate
    | GotKeyExchange(verify: bool)        // whether a CertificateVerify is to follow
    | GotVerify
    | GotFinish(ticket: bool)
    | SentTicket
    | SentChange
    | SentFinish
    | Flushed

  // ---- The flights ----

  /** The server's flight up to ServerHelloDone */
  datatype Offer = Offer(ticket: bool, anonymous: bool, status: bool, keyExchange: bool, certRequest: bool)

  function CertificatePart(o: Offer): seq<Item> {
    if o.anonymous then [NoCertificate]
    else if o.status then [SentCertificate(true), SentStatus]
    else [SentCertificate(false)]
  }

  /** A ClientHello and that flight in answer to it */
  function Offered(o: Offer): seq<Item> {
    [GotHello(false, false), SentHello(o.ticket)] + CertificatePart(o)
    + [KeyExchange(o.keyExchange), CertRequest(o.certRequest), SentDone, Flushed]
  }

  /** What brings another ClientHello: a HelloVerifyRequest, or a client that starts over. */
  datatype Round = Verify(resumed: bool) | Again(o: Offer)

  function RoundItems(r: Round): seq<Item> {
    match r
    case Verify(resumed) => [GotHello(resumed, true), SentVerifyRequest, Flushed]
    case Again(o) => Offered(o) + [GotSecondHello]
  }

  function Rounds(rounds: seq<Round>): seq<Item> {
    if rounds == [] then []
    else Rounds(rounds[..|rounds| - 1]) + RoundItems(rounds[|rounds| - 1])
  }

  /** The way a handshake takes from the last ClientHello on. */
  datatype Course =
    | Resumed(ticket: bool, lateTicket: bool)
    | Full(o: Offer, verify: bool, ticket: bool)

  function FromHello(c: Course): seq<Item> {
    match c
    case Resumed(ticket, lateTicket) =>
      [GotHello(true, false), SentHello(ticket)] + (if ticket then [SentTicket] else [])
      + [SentChange, SentFinish, Flushed, GotFinish(lateTicket)]
    case Full(o, verify, ticket) =>
      Offered(o) + [GotCertificate, GotKeyExchange(verify)] + (if verify then [GotVerify] else [])
      + [GotFinish(ticket)] + (if ticket then [SentTicket] else []) + [SentChange, SentFinish, Flushed]
  }

  /** These items are a whole handshake. */
  ghost predicate IsHandshake(items: seq<Item>) {
    exists rounds, c :: items == Rounds(rounds) + FromHello(c)
  }

  // ---- Looking on ----

  /** What one iteration adds: nothing when its helper fails or has to be tried again. */
  function Note(items: seq<Item>, pc: Pc, h: Helpers): seq<Item> {
    match pc
    case Before => []
    case Accept => []
    case Renegotiate => []
    case HelloRequestSent => items
    case Ok => items
    case Flush => if h.ret > 0 || !h.retry then items + [Flushed] else items
    case _ => if Ends(pc, h) then items + [Message(pc, h)] else items
  }

  /** The state's message has been read or sent, or is not needed. */
  predicate Ends(pc: Pc, h: Helpers) {
    match pc
    case SendCert => h.anonymous || h.ret > 0
    case SendKeyExch => !h.needed || h.ret > 0
    case SendCertReq => !h.needed || h.ret > 0
    case GetCert => h.ret == 2 || (h.ret > 0 && h.ret2 > 0)
    case Change => h.sound && h.ret > 0
    case _ => h.ret > 0
  }

  function Message(pc: Pc, h: Helpers): Item
    requires pc !in {Before, Accept, Renegotiate, HelloRequestSent, Flush, Ok}
  {
    match pc
    case SendHelloRequest => SentHelloRequest
    case GetHello => GotHello(h.hit, h.ret == 1 && h.cookies)
    case SendHelloVerify => SentVerifyRequest
    case SendHello => SentHello(h.ticket)
    case SendCert => if h.anonymous then NoCertificate else SentCertificate(h.status)
    case SendCertStatus => SentStatus
    case SendKeyExch => KeyExchange(h.needed)
    case SendCertReq => CertRequest(h.needed)
    case SendDone => SentDone
    case GetCert => if h.ret == 2 then GotSecondHello else GotCertificate
    case GetKeyExch => GotKeyExchange(h.ret != 2)
    case GetVerify => GotVerify
    case GetFinished => GotFinish(h.ticket)
    case SendTicket => SentTicket
    case Change => SentChange
    case Finish => SentFinish
  }

  /** The driver with what it has read and sent. */
  datatype Watched = Watched(s: State, items: seq<Item>)

  function Watch(w: Watched, script: seq<Helpers>): Watched
    decreases |script|
  {
    if script == [] then w else
    var (s1, outcome) := Step(w.s, script[0]);
    var w1 := Watched(s1, Note(w.items, w.s.pc, script[0]));
    if outcome == GoOn then Watch(w1, script[1..]) else w1
  }

  function WatchAct(w: Watched, act: Act): Watched {
    if act.Call? then Watch(w.(s := Enter(w.s)), act.script) else w.(s := Perform(w.s, act))
  }

  function WatchRun(w: Watched, acts: seq<Act>): Watched
    decreases |acts|
  {
    if acts == [] then w else WatchRun(WatchAct(w, acts[0]), acts[1..])
  }

  lemma {:induction false} WatchIsLoop(w: Watched, script: seq<Helpers>)
    ensures Watch(w, script).s == Loop(w.s, script).0
    decreases |script|
  {
    if script != [] && Step(w.s, script[0]).1 == GoOn {
      WatchIsLoop(Watched(Step(w.s, script[0]).0, Note(w.items, w.s.pc, script[0])), script[1..]);
    }
  }

  lemma {:induction false} WatchRunIsRun(w: Watched, acts: seq<Act>)
    ensures WatchRun(w, acts).s == Run(w.s, acts)
    decreases |acts|
  {
    if acts != [] {
      if acts[0].Call? { WatchIsLoop(w.(s := Enter(w.s)), acts[0].script); }
      WatchRunIsRun(WatchAct(w, acts[0]), acts[1..]);
    }
  }

  // ---- What has been read and sent at each state ----

  /** What the items so far have told. */
  datatype Clues = Clues(rounds: seq<Round>, o: Offer, verify: bool, ticket: bool)

  function Greeted(k: Clues): seq<Item> { Rounds(k.rounds) + [GotHello(false, false)] + [SentHello(k.o.ticket)] }

  function Certified(k: Clues): seq<Item> {
    if k.o.anonymous then Greeted(k) + [NoCertificate]
    else if k.o.status then Greeted(k) + [SentCertificate(true)] + [SentStatus]
    else Greeted(k) + [SentCertificate(false)]
  }

  function Asked(k: Clues): seq<Item> { Certified(k) + [KeyExchange(k.o.keyExchange)] + [CertRequest(k.o.certRequest)] }

  function Answered(k: Clues): seq<Item> {
    var keys := Asked(k) + [SentDone] + [Flushed] + [GotCertificate] + [GotKeyExchange(k.verify)];
    if k.verify then keys + [GotVerify] else keys
  }

  /** Before the SessionTicket */
  function Met(hit: bool, k: Clues): seq<Item> {
    if hit then Rounds(k.rounds) + [GotHello(true, false)] + [SentHello(k.ticket)]
    else Answered(k) + [GotFinish(k.ticket)]
  }

  /** Before the server's ChangeCipherSpec */
  function Ready(hit: bool, k: Clues): seq<Item> { if k.ticket then Met(hit, k) + [SentTicket] else Met(hit, k) }

  function Closing(hit: bool, k: Clues): seq<Item> { Ready(hit, k) + [SentChange] + [SentFinish] }

  ghost predicate At(s: State, items: seq<Item>, k: Clues) {
    match s.pc
    case GetHello => items == Rounds(k.rounds)
    case SendHelloVerify => items == Rounds(k.rounds) + [GotHello(s.hit, true)]
    case SendHello => items == Rounds(k.rounds) + [GotHello(s.hit, false)]
    case SendCert => items == Greeted(k)
    case SendCertStatus => items == Greeted(k) + [SentCertificate(true)]
    case SendKeyExch => items == Certified(k)
    case SendCertReq => items == Certified(k) + [KeyExchange(k.o.keyExchange)]
    case SendDone => items == Asked(k)
    case GetCert => items == Asked(k) + [SentDone] + [Flushed]
    case GetKeyExch => items == Asked(k) + [SentDone] + [Flushed] + [GotCertificate]
    case GetVerify => items == Asked(k) + [SentDone] + [Flushed] + [GotCertificate] + [GotKeyExchange(true)]
    case GetFinished => items == if s.hit then Closing(true, k) + [Flushed] else Answered(k)
    case SendTicket => items == Met(s.hit, k) && k.ticket
    case Change => items == Ready(s.hit, k)
    case Finish => items == Ready(s.hit, k) + [SentChange]
    case Flush =>
      || s.next == HelloRequestSent
      || (s.next == GetHello && items == Rounds(k.rounds) + [GotHello(s.hit, true)] + [SentVerifyRequest])
      || (s.next == GetCert && !s.hit && items == Asked(k) + [SentDone])
      || (s.next == GetFinished && s.hit && items == Closing(true, k))
      || (s.next == Ok && !s.hit && items == Closing(false, k))
    case Ok => s.renegotiate == 2 ==> IsHandshake(items)
    case _ => true
  }

  // ---- Each iteration keeps it ----

  lemma StartTurn(s: State, items: seq<Item>, h: Helpers, k: Clues) returns (k': Clues)
    requires Inv(s) && At(s, items, k)
    requires s.pc in {Before, Accept, Renegotiate, SendHelloRequest, HelloRequestSent}
    ensures At(Step(s, h).0, Note(items, s.pc, h), k')
  {
    k' := k.(rounds := []);
  }

  lemma HelloTurn(s: State, items: seq<Item>, h: Helpers, k: Clues) returns (k': Clues)
    requires Inv(s) && At(s, items, k) && s.pc in {GetHello, SendHelloVerify, SendHello}
    ensures At(Step(s, h).0, Note(items, s.pc, h), k')
  {
    k' := k;
    if s.pc == SendHello { k' := if s.hit then k.(ticket := h.ticket) else k.(o := k.o.(ticket := h.ticket)); }
  }

  lemma CertTurn(s: State, items: seq<Item>, h: Helpers, k: Clues) returns (k': Clues)
    requires Inv(s) && At(s, items, k) && s.pc in {SendCert, SendCertStatus}
    ensures At(Step(s, h).0, Note(items, s.pc, h), k')
  {
    k' := if s.pc == SendCertStatus then k.(o := k.o.(anonymous := false, status := true))
          else k.(o := k.o.(anonymous := h.anonymous, status := h.status));
  }

  lemma OfferTurn(s: State, items: seq<Item>, h: Helpers, k: Clues) returns (k': Clues)
    requires Inv(s) && At(s, items, k) && s.pc in {SendKeyExch, SendCertReq, SendDone}
    ensures At(Step(s, h).0, Note(items, s.pc, h), k')
  {
    match s.pc {
      case SendKeyExch => k' := if Ends(s.pc, h) then k.(o := k.o.(keyExchange := h.needed)) else k;
      case SendCertReq => k' := if Ends(s.pc, h) then k.(o := k.o.(certRequest := h.needed)) else k;
      case SendDone => k' := k;
    }
  }

  lemma ClientTurn(s: State, items: seq<Item>, h: Helpers, k: Clues) returns (k': Clues)
    requires Inv(s) && At(s, items, k) && s.pc in {GetKeyExch, GetVerify}
    ensures At(Step(s, h).0, Note(items, s.pc, h), k')
  {
    k' := if s.pc == GetVerify then k.(verify := true) else k.(verify := h.ret != 2);
  }

  lemma CertificateTurn(s: State, items: seq<Item>, h: Helpers, k: Clues) returns (k': Clues)
    requires Inv(s) && At(s, items, k) && s.pc == GetCert
    ensures At(Step(s, h).0, Note(items, s.pc, h), k')
  {
    k' := k;
    if h.ret == 2 {
      k' := k.(rounds := k.rounds + [Again(k.o)]);
      OneMoreOffer(k);
    }
  }

  lemma FinishedTurn(s: State, items: seq<Item>, h: Helpers, k: Clues) returns (k': Clues)
    requires Inv(s) && At(s, items, k) && s.pc == GetFinished
    ensures At(Step(s, h).0, Note(items, s.pc, h), k')
  {
    k' := k;
    if s.hit { ResumedIsHandshake(k, h.ticket); } else { k' := k.(ticket := h.ticket); }
  }

  lemma ChangeTurn(s: State, items: seq<Item>, h: Helpers, k: Clues)
    requires Inv(s) && At(s, items, k) && s.pc in {SendTicket, Change, Finish}
    ensures At(Step(s, h).0, Note(items, s.pc, h), k)
  {
  }

  lemma FlushTurn(s: State, items: seq<Item>, h: Helpers, k: Clues) returns (k': Clues)
    requires Inv(s) && At(s, items, k) && s.pc in {Flush, Ok}
    ensures At(Step(s, h).0, Note(items, s.pc, h), k')
  {
    k' := k;
    if s.pc == Flush && s.next == GetHello {
      if h.ret > 0 || !h.retry {
        k' := k.(rounds := k.rounds + [Verify(s.hit)]);
        OneMoreVerify(k.rounds, s.hit);
      }
    } else if s.pc == Flush && s.next == Ok {
      FullIsHandshake(k);
    }
  }

  lemma RoundsGrow(rounds: seq<Round>, r: Round)
    ensures Rounds(rounds + [r]) == Rounds(rounds) + RoundItems(r)
  {
    assert (rounds + [r])[..|rounds|] == rounds;
  }

  lemma OneMoreVerify(rounds: seq<Round>, hit: bool)
    ensures Rounds(rounds) + [GotHello(hit, true)] + [SentVerifyRequest] + [Flushed] == Rounds(rounds + [Verify(hit)])
  {
    RoundsGrow(rounds, Verify(hit));
  }

  lemma OneMoreOffer(k: Clues)
    ensures Asked(k) + [SentDone] + [Flushed] + [GotSecondHello] == Rounds(k.rounds + [Again(k.o)])
  {
    RoundsGrow(k.rounds, Again(k.o));
    OfferedIs(k);
    Join(Rounds(k.rounds), Offered(k.o), [GotSecondHello]);
  }

  lemma Join<T>(a: seq<T>, b: seq<T>, c: seq<T>)
    ensures a + b + c == a + (b + c)
  {
  }

  lemma OfferedIs(k: Clues)
    ensures Asked(k) + [SentDone] + [Flushed] == Rounds(k.rounds) + Offered(k.o)
  {
    assert Certified(k) == Rounds(k.rounds) + ([GotHello(false, false), SentHello(k.o.ticket)] + CertificatePart(k.o));
    EndOfOffer(Rounds(k.rounds), [GotHello(false, false), SentHello(k.o.ticket)] + CertificatePart(k.o),
               KeyExchange(k.o.keyExchange), CertRequest(k.o.certRequest), SentDone, Flushed);
  }

  lemma EndOfOffer<T>(a: seq<T>, b: seq<T>, w: T, x: T, y: T, z: T)
    ensures a + b + [w] + [x] + [y] + [z] == a + (b + [w, x, y, z])
  {
  }

  lemma ResumedIsHandshake(k: Clues, lateTicket: bool)
    ensures IsHandshake(Closing(true, k) + [Flushed] + [GotFinish(lateTicket)])
  {
    var c := Resumed(k.ticket, lateTicket);
    ReadyIs(k);
    assert Closing(true, k) + [Flushed] + [GotFinish(lateTicket)] == Rounds(k.rounds) + FromHello(c);
  }

  lemma ReadyIs(k: Clues)
    ensures Ready(true, k)
            == Rounds(k.rounds) + ([GotHello(true, false), SentHello(k.ticket)] + if k.ticket then [SentTicket] else [])
  {
  }

  lemma FullIsHandshake(k: Clues)
    ensures IsHandshake(Closing(false, k) + [Flushed])
  {
    var c := Full(k.o, k.verify, k.ticket);
    OfferedIs(k);
    AnsweredIs(k);
    var verify := if k.verify then [GotVerify] else [];
    var ticket := if k.ticket then [SentTicket] else [];
    EndIs(Rounds(k.rounds), Offered(k.o), [GotCertificate, GotKeyExchange(k.verify)], verify, [GotFinish(k.ticket)],
          ticket);
    assert Ready(false, k) == Answered(k) + [GotFinish(k.ticket)] + ticket;
    assert Closing(false, k) + [Flushed] == Ready(false, k) + [SentChange, SentFinish, Flushed];
    assert Closing(false, k) + [Flushed] == Rounds(k.rounds) + FromHello(c);
  }

  lemma AnsweredIs(k: Clues)
    ensures Answered(k) == Asked(k) + [SentDone] + [Flushed] + [GotCertificate, GotKeyExchange(k.verify)]
                           + if k.verify then [GotVerify] else []
  {
  }

  lemma EndIs(a: seq<Item>, b: seq<Item>, c: seq<Item>, d: seq<Item>, e: seq<Item>, f: seq<Item>)
    ensures a + b + c + d + e + f + [SentChange, SentFinish, Flushed]
            == a + (b + c + d + e + f + [SentChange, SentFinish, Flushed])
  {
  }

  lemma TurnKeepsItems(s: State, items: seq<Item>, h: Helpers, k: Clues) returns (k': Clues)
    requires Inv(s) && At(s, items, k)
    ensures At(Step(s, h).0, Note(items, s.pc, h), k')
  {
    if s.pc in {GetHello, SendHelloVerify, SendHello} {
      k' := HelloTurn(s, items, h, k);
    } else if s.pc in {SendCert, SendCertStatus} {
      k' := CertTurn(s, items, h, k);
    } else if s.pc in {SendKeyExch, SendCertReq, SendDone} {
      k' := OfferTurn(s, items, h, k);
    } else if s.pc == GetCert {
      k' := CertificateTurn(s, items, h, k);
    } else if s.pc in {GetKeyExch, GetVerify} {
      k' := ClientTurn(s, items, h, k);
    } else if s.pc == GetFinished {
      k' := FinishedTurn(s, items, h, k);
    } else if s.pc in {SendTicket, Change, Finish} {
      ChangeTurn(s, items, h, k);
      k' := k;
    } else if s.pc in {Flush, Ok} {
      k' := FlushTurn(s, items, h, k);
    } else {
      k' := StartTurn(s, items, h, k);
    }
  }

  // ---- The events are those items ----

  function EventOf(x: Item): seq<Event> {
    if x == SentChange then [SentCcs]
    else if x == SentFinish then [SentFinished]
    else if x.GotFinish? then [PeerFinished]
    else []
  }

  function EventsOf(items: seq<Item>): seq<Event> {
    if items == [] then [] else EventsOf(items[..|items| - 1]) + EventOf(items[|items| - 1])
  }

  lemma EventsGrow(items: seq<Item>, x: Item)
    ensures EventsOf(items + [x]) == EventsOf(items) + EventOf(x)
  {
    assert (items + [x])[..|items|] == items;
  }

  /** The events the driver's own invariant speaks of are those of the items. */
  predicate Linked(w: Watched) { w.s.pc in {Before, Accept, Renegotiate} || w.s.events == EventsOf(w.items) }

  /** Only three states have events to tell of. */
  lemma QuietNote(items: seq<Item>, pc: Pc, h: Helpers)
    requires pc !in {Before, Accept, Renegotiate, Change, Finish, GetFinished}
    ensures EventsOf(Note(items, pc, h)) == EventsOf(items)
  {
    var after := Note(items, pc, h);
    if after != items { EventsGrow(items, after[|items|]); }
  }

  lemma QuietStep(s: State, h: Helpers)
    requires s.pc !in {Before, Accept, Renegotiate, Change, Finish, GetFinished}
    ensures Step(s, h).0.events == s.events
  {
    match s.pc {
      case SendHelloRequest =>
      case HelloRequestSent =>
      case GetHello =>
      case SendHelloVerify =>
      case SendHello =>
      case SendTicket =>
      case Flush =>
      case Ok =>
      case _ => QuietMessage(s, h);
    }
  }

  lemma QuietMessage(s: State, h: Helpers)
    requires s.pc in {SendCert, SendCertStatus, SendKeyExch, SendCertReq, SendDone, GetCert, GetKeyExch, GetVerify}
    ensures Step(s, h).0.events == s.events
  {
  }

  lemma TellingTurn(s: State, items: seq<Item>, h: Helpers)
    requires s.pc in {Change, Finish, GetFinished}
    ensures s.events == EventsOf(items) ==> Step(s, h).0.events == EventsOf(Note(items, s.pc, h))
  {
    if Ends(s.pc, h) {
      EventsGrow(items, Message(s.pc, h));
      TellingStep(s, h);
    }
  }

  lemma TellingStep(s: State, h: Helpers)
    requires s.pc in {Change, Finish, GetFinished} && Ends(s.pc, h)
    ensures Step(s, h).0.events == s.events + EventOf(Message(s.pc, h))
  {
    match s.pc {
      case Change =>
      case Finish =>
      case GetFinished =>
    }
  }

  lemma FreshTurn(s: State, items: seq<Item>, h: Helpers)
    requires s.pc in {Before, Accept, Renegotiate}
    ensures Step(s, h).0.events == [] && Note(items, s.pc, h) == []
  {
  }

  lemma TurnKeepsLink(w: Watched, h: Helpers)
    requires Linked(w)
    ensures Linked(Watched(Step(w.s, h).0, Note(w.items, w.s.pc, h)))
  {
    if w.s.pc in {Change, Finish, GetFinished} {
      TellingTurn(w.s, w.items, h);
    } else if w.s.pc !in {Before, Accept, Renegotiate} {
      QuietStep(w.s, h);
      QuietNote(w.items, w.s.pc, h);
    } else {
      FreshTurn(w.s, w.items, h);
    }
  }

  // ---- Over runs ----

  /** What holds between iterations, and between calls */
  ghost predicate Sound(w: Watched) { Inv(w.s) && Linked(w) && exists k :: At(w.s, w.items, k) }

  lemma TurnKeepsSound(w: Watched, h: Helpers)
    requires Sound(w)
    ensures Sound(Watched(Step(w.s, h).0, Note(w.items, w.s.pc, h)))
  {
    var k :| At(w.s, w.items, k);
    var k' := TurnKeepsItems(w.s, w.items, h, k);
    StepKeepsInv(w.s, h);
    TurnKeepsLink(w, h);
  }

  lemma {:induction false} WatchKeepsSound(w: Watched, script: seq<Helpers>)
    requires Sound(w)
    ensures Sound(Watch(w, script))
    decreases |script|
  {
    if script != [] {
      TurnKeepsSound(w, script[0]);
      var (s1, outcome) := Step(w.s, script[0]);
      if outcome == GoOn { WatchKeepsSound(Watched(s1, Note(w.items, w.s.pc, script[0])), script[1..]); }
    }
  }

  lemma EnterKeepsSound(w: Watched)
    requires Sound(w)
    ensures Sound(w.(s := Enter(w.s)))
  {
    var k :| At(w.s, w.items, k);
    EnterKeepsInv(w.s);
    assert At(Enter(w.s), w.items, k);
  }

  lemma OtherActKeepsSound(w: Watched, act: Act)
    requires Sound(w) && !act.Call?
    ensures Sound(w.(s := Perform(w.s, act)))
  {
    var k :| At(w.s, w.items, k);
    assert At(Perform(w.s, act), w.items, k);
  }

  lemma {:induction false} RunKeepsSound(w: Watched, acts: seq<Act>)
    requires Sound(w)
    ensures Sound(WatchRun(w, acts))
    decreases |acts|
  {
    if acts != [] {
      if acts[0].Call? {
        EnterKeepsSound(w);
        WatchKeepsSound(w.(s := Enter(w.s)), acts[0].script);
      } else {
        OtherActKeepsSound(w, acts[0]);
      }
      RunKeepsSound(WatchAct(w, acts[0]), acts[1..]);
    }
  }

  const OPENING: Watched := Watched(INITIAL, [])

  lemma {:induction false} ReportIsHandshake(w: Watched, script: seq<Helpers>)
    requires Sound(w) && Loop(w.s, script).1
    ensures var v := Watch(w, script);
            && v.s == Loop(w.s, script).0 && v.s.pc == Ok
            && IsHandshake(v.items) && EventsOf(v.items) == v.s.events
    decreases |script|
  {
    var (s1, outcome) := Step(w.s, script[0]);
    var w1 := Watched(s1, Note(w.items, w.s.pc, script[0]));
    TurnKeepsSound(w, script[0]);
    if outcome == GoOn {
      ReportIsHandshake(w1, script[1..]);
    } else {
      StepKeepsInv(w.s, script[0]);
      var k :| At(w.s, w.items, k);
    }
  }

  /**
   * On every run, whatever the helpers do: when a call reports SSL_CB_HANDSHAKE_DONE, the messages read and sent
   * since SSL_CB_HANDSHAKE_START are, in this order, those of one of the protocol's handshakes.
   */
  lemma DoneIsHandshake(acts: seq<Act>, script: seq<Helpers>)
    requires OneCall(Run(INITIAL, acts), script).1
    ensures var w := WatchAct(WatchRun(OPENING, acts), Call(script));
            && w.s == OneCall(Run(INITIAL, acts), script).0
            && IsHandshake(w.items) && EventsOf(w.items) == w.s.events
  {
    var x := WatchRun(OPENING, acts);
    WatchRunIsRun(OPENING, acts);
    assert At(INITIAL, [], Clues([], Offer(false, false, false, false, false), false, false));
    RunKeepsSound(OPENING, acts);
    EnterKeepsSound(x);
    ReportIsHandshake(x.(s := Enter(x.s)), script);
  }
}
