/**
 * What a client's handshake consists of: the messages read and sent since SSL_CB_HANDSHAKE_START, written down
 * as the flights of the protocol, and the proof that dtls1_connect (d1_clnt.c) completes no other handshake.
 */
module ClientTrace {
  import opened ClientDriver
  import opened HandshakeEvents

  /** A message helper that came to its end, or a flush that was left; with what the driver learns from it. */
  datatype Item =
    | SentHello
    | GotHello(resumed: bool)
    | GotVerifyRequest(cookie: bool)
    | FinishedIsNext(ticket: bool)        // the server resumes the session after all
    | NoCertificate                       // an anonymous cipher suite
    | GotCertificate(status: bool)
    | GotStatus
    | GotKeyExchange
    | GotCertRequest
    | GotDone(certReq: int)
    | SentCertificate
    | SentKeyExchange(certReq: int)
    | SentVerify
    | SentChange
    | SentFinish(ticket: bool, delay: bool)
    | GotTicket
    | GotFinish
    | Flushed

  // ---- The flights ----

  /** The ClientHello, sent again with each cookie that is asked for. */
  function Hellos(cookies: nat): seq<Item> {
    if cookies == 0 then [SentHello]
    else Hellos(cookies - 1) + [GotHello(false), GotVerifyRequest(true), SentHello, Flushed]
  }

  /** The way a handshake takes once the last ClientHello is out. */
  datatype Course =
    | Resumed(last: Item)
    | ResumedLate(ticket: bool, last: Item)
    | Full(server: ServerPart, sentCertReq: int, last: Item)

  /** The server's part of a full handshake: `certReq` is whether a certificate was asked for. */
  datatype ServerPart = ServerPart(anonymous: bool, status: bool, certReq: int)

  function ServerFlight(p: ServerPart): seq<Item> {
    (if p.anonymous then [NoCertificate] else if p.status then [GotCertificate(true), GotStatus]
     else [GotCertificate(false)])
    + [GotKeyExchange, GotCertRequest, GotDone(p.certReq)]
  }

  function ClientFlight(certReq: int, sentCertReq: int, last: Item): seq<Item> {
    (if certReq != 0 then [SentCertificate] else [])
    + [SentKeyExchange(sentCertReq)]
    + (if sentCertReq == 1 then [SentVerify] else [])
    + [SentChange, last, Flushed]
  }

  /** The end of a resumed handshake, where the client finishes second. */
  function Abbreviated(last: Item): seq<Item>
    requires last.SentFinish?
  {
    [GotFinish, SentChange, last] + if last.delay then [] else [Flushed]
  }

  predicate IsCourse(c: Course) { c.last.SentFinish? }

  function AfterHello(c: Course): seq<Item>
    requires IsCourse(c)
  {
    match c
    case Resumed(last) => [GotHello(true)] + Abbreviated(last)
    case ResumedLate(ticket, last) =>
      [GotHello(false), GotVerifyRequest(false), FinishedIsNext(ticket)]
      + (if ticket then [GotTicket] else []) + Abbreviated(last)
    case Full(server, sentCertReq, last) =>
      [GotHello(false), GotVerifyRequest(false)]
      + ServerFlight(server) + ClientFlight(server.certReq, sentCertReq, last)
      + (if last.ticket then [GotTicket] else []) + [GotFinish]
  }

  /** These items are a whole handshake. */
  ghost predicate IsHandshake(items: seq<Item>) {
    exists n: nat, c: Course :: IsCourse(c) && items == Hellos(n) + AfterHello(c)
  }

  // ---- Looking on ----

  /** What one iteration adds: nothing when its helper fails or has to be tried again. */
  function Note(items: seq<Item>, pc: Pc, h: Helpers): seq<Item> {
    if pc in {Before, Connect, Renegotiate} then []
    else if pc == Ok then items
    else if pc == Flush then (if h.ret > 0 || !h.retry then items + [Flushed] else items)
    else if h.ret <= 0 || (pc == GetCert && h.ret != 2 && !h.anonymous && h.ret2 <= 0) then items
    else items + [Message(pc, h)]
  }

  function Message(pc: Pc, h: Helpers): Item
    requires pc !in {Before, Connect, Renegotiate, Flush, Ok}
  {
    match pc
    case SendHello => SentHello
    case GetHello => GotHello(h.hit)
    case GetHelloVerify => GotVerifyRequest(h.cookie)
    case GetCert =>
      if h.ret == 2 then FinishedIsNext(h.ticket) else if h.anonymous then NoCertificate else GotCertificate(h.status)
    case GetCertStatus => GotStatus
    case GetKeyExch => GotKeyExchange
    case GetCertReq => GotCertRequest
    case GetDone => GotDone(h.certReq)
    case SendCert => SentCertificate
    case SendKeyExch => SentKeyExchange(h.certReq)
    case SendVerify => SentVerify
    case Change => SentChange
    case Finish => SentFinish(h.ticket, h.delay)
    case GetTicket => GotTicket
    case GetFinished => GotFinish
  }

  /** The driver with what it has read and sent. */
  datatype Watched = Watched(s: State, items: seq<Item>)

  function Watch(w: Watched, script: seq<Helpers>): Watched
    decreases |script|
  {
    if script == [] then w else
    var (s1, outcome) := Step(w.s, script[0]);
    var w1 := Watched(s1, Note(w.items, w.s.pc, script[0]));
    if outcome == GoOn then Watch(w1, script[1..]) else w1
  }

  function WatchAct(w: Watched, act: Act): Watched {
    if act.Call? then Watch(w.(s := Enter(w.s)), act.script) else w.(s := Perform(w.s, act))
  }

  function WatchRun(w: Watched, acts: seq<Act>): Watched
    decreases |acts|
  {
    if acts == [] then w else WatchRun(WatchAct(w, acts[0]), acts[1..])
  }

  lemma {:induction false} WatchIsLoop(w: Watched, script: seq<Helpers>)
    ensures Watch(w, script).s == Loop(w.s, script).0
    decreases |script|
  {
    if script != [] && Step(w.s, script[0]).1 == GoOn {
      WatchIsLoop(Watched(Step(w.s, script[0]).0, Note(w.items, w.s.pc, script[0])), script[1..]);
    }
  }

  lemma {:induction false} WatchRunIsRun(w: Watched, acts: seq<Act>)
    ensures WatchRun(w, acts).s == Run(w.s, acts)
    decreases |acts|
  {
    if acts != [] {
      if acts[0].Call? { WatchIsLoop(w.(s := Enter(w.s)), acts[0].script); }
      WatchRunIsRun(WatchAct(w, acts[0]), acts[1..]);
    }
  }

  // ---- The events are those items ----

  function EventOf(x: Item): seq<Event> {
    if x == SentChange then [SentCcs]
    else if x.SentFinish? then [SentFinished]
    else if x == GotFinish then [PeerFinished]
    else []
  }

  function EventsOf(items: seq<Item>): seq<Event> {
    if items == [] then [] else EventsOf(items[..|items| - 1]) + EventOf(items[|items| - 1])
  }

  lemma EventsGrow(items: seq<Item>, x: Item)
    ensures EventsOf(items + [x]) == EventsOf(items) + EventOf(x)
  {
    assert (items + [x])[..|items|] == items;
  }

  // ---- What has been read and sent at each state ----

  /** What the items so far have told. */
  datatype Clues = Clues(cookies: nat, late: bool, ticket: bool, server: ServerPart, sentCertReq: int, last: Item)

  function Asked(k: Clues): seq<Item> { Hellos(k.cookies) + [GotHello(false)] + [GotVerifyRequest(false)] }

  function Certified(k: Clues): seq<Item> {
    if k.server.anonymous then Asked(k) + [NoCertificate]
    else if k.server.status then Asked(k) + [GotCertificate(true)] + [GotStatus]
    else Asked(k) + [GotCertificate(false)]
  }

  function Heard(k: Clues): seq<Item> {
    Certified(k) + [GotKeyExchange] + [GotCertRequest] + [GotDone(k.server.certReq)]
  }

  function Presented(k: Clues): seq<Item> {
    if k.server.certReq != 0 then Heard(k) + [SentCertificate] else Heard(k)
  }

  function Keyed(k: Clues): seq<Item> {
    var keys := Presented(k) + [SentKeyExchange(k.sentCertReq)];
    if k.sentCertReq == 1 then keys + [SentVerify] else keys
  }

  function Late(k: Clues): seq<Item> { Asked(k) + [FinishedIsNext(k.ticket)] }

  function Resuming(k: Clues): seq<Item> {
    if !k.late then Hellos(k.cookies) + [GotHello(true)]
    else if k.ticket then Late(k) + [GotTicket]
    else Late(k)
  }

  /** Before the client's ChangeCipherSpec */
  function Ready(hit: bool, k: Clues): seq<Item> { if hit then Resuming(k) + [GotFinish] else Keyed(k) }

  function Closing(hit: bool, k: Clues): seq<Item> { Ready(hit, k) + [SentChange] + [k.last] }

  /** The client's flight of a full handshake is out. */
  function Waiting(k: Clues): seq<Item> { Closing(false, k) + [Flushed] }

  function Ticketed(k: Clues): seq<Item>
    requires k.last.SentFinish?
  {
    if k.last.ticket then Waiting(k) + [GotTicket] else Waiting(k)
  }

  ghost predicate At(s: State, items: seq<Item>, k: Clues) {
    k.last.SentFinish? &&
    match s.pc
    case SendHello =>
      items == if s.sendCookie then Hellos(k.cookies) + [GotHello(false)] + [GotVerifyRequest(true)] else []
    case GetHello => items == Hellos(k.cookies)
    case GetHelloVerify => items == Hellos(k.cookies) + [GotHello(false)]
    case GetCert => items == Asked(k)
    case GetCertStatus => items == Asked(k) + [GotCertificate(true)]
    case GetKeyExch => items == Certified(k)
    case GetCertReq => items == Certified(k) + [GotKeyExchange]
    case GetDone => items == Certified(k) + [GotKeyExchange] + [GotCertRequest]
    case SendCert => items == Heard(k) && k.server.certReq != 0
    case SendKeyExch => items == Presented(k)
    case SendVerify => items == Presented(k) + [SentKeyExchange(1)]
    case Change => items == Ready(s.hit, k)
    case Finish => items == Ready(s.hit, k) + [SentChange]
    case Flush =>
      || (s.next == GetHello
          && items == Hellos(k.cookies) + [GotHello(false)] + [GotVerifyRequest(true)] + [SentHello])
      || (s.next == Ok && items == Closing(true, k) && !k.last.delay)
      || (s.next == GetTicket && !s.hit && items == Closing(false, k) && k.last.ticket)
      || (s.next == GetFinished && !s.hit && items == Closing(false, k) && !k.last.ticket)
    case GetTicket => if s.hit then k.ticket && items == Late(k) else k.last.ticket && items == Waiting(k)
    case GetFinished => items == if s.hit then Resuming(k) else Ticketed(k)
    case Ok => IsHandshake(items)
    case _ => true
  }

  // ---- Each iteration keeps it ----

  lemma HelloTurn(s: State, items: seq<Item>, h: Helpers, k: Clues) returns (k': Clues)
    requires Inv(s) && At(s, items, k) && s.pc in {Before, Connect, Renegotiate, SendHello, GetHello, GetHelloVerify}
    ensures At(Step(s, h).0, Note(items, s.pc, h), k')
  {
    k' := k;
    if s.pc == SendHello && !s.sendCookie { k' := k.(cookies := 0); }
    if s.pc == GetHello { k' := k.(late := false); }
  }

  lemma CertTurn(s: State, items: seq<Item>, h: Helpers, k: Clues) returns (k': Clues)
    requires Inv(s) && At(s, items, k) && s.pc in {GetCert, GetCertStatus}
    ensures At(Step(s, h).0, Note(items, s.pc, h), k')
  {
    if s.pc == GetCertStatus {
      k' := k.(server := ServerPart(false, true, 0));
    } else if h.ret == 2 {
      k' := k.(late := true, ticket := h.ticket);
    } else {
      k' := k.(server := ServerPart(h.anonymous, h.status, 0));
    }
  }

  lemma ServerTurn(s: State, items: seq<Item>, h: Helpers, k: Clues) returns (k': Clues)
    requires Inv(s) && At(s, items, k) && s.pc in {GetKeyExch, GetCertReq, GetDone}
    ensures At(Step(s, h).0, Note(items, s.pc, h), k')
  {
    k' := if s.pc == GetDone then k.(server := k.server.(certReq := h.certReq)) else k;
  }

  lemma ClientTurn(s: State, items: seq<Item>, h: Helpers, k: Clues) returns (k': Clues)
    requires Inv(s) && At(s, items, k) && s.pc in {SendCert, SendKeyExch, SendVerify}
    ensures At(Step(s, h).0, Note(items, s.pc, h), k')
  {
    k' := k;
    if s.pc == SendKeyExch { k' := k.(sentCertReq := h.certReq); }
    if s.pc == SendVerify { k' := k.(sentCertReq := 1); }
  }

  lemma TicketTurn(s: State, items: seq<Item>, h: Helpers, k: Clues) returns (k': Clues)
    requires Inv(s) && At(s, items, k) && s.pc == GetTicket
    ensures At(Step(s, h).0, Note(items, s.pc, h), k')
  {
    k' := if s.hit then k.(late := true) else k;
  }

  lemma FinishTurn(s: State, items: seq<Item>, h: Helpers, k: Clues) returns (k': Clues)
    requires Inv(s) && At(s, items, k) && s.pc in {Change, Finish}
    ensures At(Step(s, h).0, Note(items, s.pc, h), k')
  {
    k' := k;
    if s.pc == Finish {
      k' := k.(last := SentFinish(h.ticket, h.delay));
      if s.hit && h.delay { ResumedIsHandshake(k'); }
    }
  }

  lemma FlushTurn(s: State, items: seq<Item>, h: Helpers, k: Clues) returns (k': Clues)
    requires Inv(s) && At(s, items, k) && s.pc == Flush
    ensures At(Step(s, h).0, Note(items, s.pc, h), k')
  {
    k' := k;
    if s.next == GetHello {
      if h.ret > 0 || !h.retry {
        k' := k.(cookies := k.cookies + 1);
        OneMoreHello(k.cookies);
      }
    } else if s.next == Ok {
      ResumedIsHandshake(k);
    }
  }

  lemma OneMoreHello(n: nat)
    ensures Hellos(n) + [GotHello(false)] + [GotVerifyRequest(true)] + [SentHello] + [Flushed] == Hellos(n + 1)
  {
  }

  lemma LastTurn(s: State, items: seq<Item>, h: Helpers, k: Clues)
    requires Inv(s) && At(s, items, k) && s.pc in {GetFinished, Ok}
    ensures At(Step(s, h).0, Note(items, s.pc, h), k)
  {
    if s.pc == GetFinished && !s.hit { FullIsHandshake(k); }
  }

  lemma ResumedIsHandshake(k: Clues)
    requires k.last.SentFinish?
    ensures IsHandshake(if k.last.delay then Closing(true, k) else Closing(true, k) + [Flushed])
  {
    var c := if k.late then ResumedLate(k.ticket, k.last) else Resumed(k.last);
    assert (if k.last.delay then Closing(true, k) else Closing(true, k) + [Flushed])
        == Hellos(k.cookies) + AfterHello(c);
  }

  lemma FullIsHandshake(k: Clues)
    requires k.last.SentFinish?
    ensures IsHandshake(Ticketed(k) + [GotFinish])
  {
    HeardIs(k);
    WaitingIs(k);
    var c := Full(k.server, k.sentCertReq, k.last);
    EndIs(Hellos(k.cookies), [GotHello(false), GotVerifyRequest(false)], ServerFlight(k.server),
          ClientFlight(k.server.certReq, k.sentCertReq, k.last), if k.last.ticket then [GotTicket] else []);
    assert Ticketed(k) == Waiting(k) + if k.last.ticket then [GotTicket] else [];
    assert Ticketed(k) + [GotFinish] == Hellos(k.cookies) + AfterHello(c);
  }

  lemma EndIs(a: seq<Item>, b: seq<Item>, c: seq<Item>, d: seq<Item>, e: seq<Item>)
    ensures a + (b + c) + d + e + [GotFinish] == a + (b + c + d + e + [GotFinish])
  {
  }

  lemma HeardIs(k: Clues)
    ensures Heard(k)
            == Hellos(k.cookies) + ([GotHello(false), GotVerifyRequest(false)] + ServerFlight(k.server))
  {
  }

  lemma WaitingIs(k: Clues)
    ensures Waiting(k) == Heard(k) + ClientFlight(k.server.certReq, k.sentCertReq, k.last)
  {
    var end := [SentChange, k.last, Flushed];
    assert Waiting(k) == Keyed(k) + end;
    assert Keyed(k)
        == Presented(k) + [SentKeyExchange(k.sentCertReq)] + if k.sentCertReq == 1 then [SentVerify] else [];
  }

  lemma TurnKeepsItems(s: State, items: seq<Item>, h: Helpers, k: Clues) returns (k': Clues)
    requires Inv(s) && At(s, items, k)
    ensures At(Step(s, h).0, Note(items, s.pc, h), k')
  {
    if s.pc in {GetCert, GetCertStatus} {
      k' := CertTurn(s, items, h, k);
    } else if s.pc in {GetKeyExch, GetCertReq, GetDone} {
      k' := ServerTurn(s, items, h, k);
    } else if s.pc in {SendCert, SendKeyExch, SendVerify} {
      k' := ClientTurn(s, items, h, k);
    } else if s.pc == GetTicket {
      k' := TicketTurn(s, items, h, k);
    } else if s.pc in {Change, Finish} {
      k' := FinishTurn(s, items, h, k);
    } else if s.pc == Flush {
      k' := FlushTurn(s, items, h, k);
    } else if s.pc in {GetFinished, Ok} {
      LastTurn(s, items, h, k);
      k' := k;
    } else {
      k' := HelloTurn(s, items, h, k);
    }
  }

  /** The events the driver's own invariant speaks of are those of the items. */
  predicate Linked(w: Watched) { w.s.pc in {Before, Connect, Renegotiate} || w.s.events == EventsOf(w.items) }

  /** Only three states have events to tell of. */
  lemma QuietNote(items: seq<Item>, pc: Pc, h: Helpers)
    requires pc !in {Before, Connect, Renegotiate, Change, Finish, GetFinished}
    ensures EventsOf(Note(items, pc, h)) == EventsOf(items)
  {
    var after := Note(items, pc, h);
    if after != items { EventsGrow(items, after[|items|]); }
  }

  lemma QuietStep(s: State, h: Helpers)
    requires s.pc !in {Before, Connect, Renegotiate, Change, Finish, GetFinished}
    ensures Step(s, h).0.events == s.events
  {
    match s.pc {
      case SendHello =>
      case GetHello =>
      case GetHelloVerify =>
      case GetCert =>
      case Flush =>
      case Ok =>
      case _ => QuietMessage(s, h);
    }
  }

  lemma QuietMessage(s: State, h: Helpers)
    requires s.pc in {GetCertStatus, GetKeyExch, GetCertReq, GetDone, SendCert, SendKeyExch, SendVerify, GetTicket}
    ensures Step(s, h).0.events == s.events
  {
  }

  lemma TellingTurn(s: State, items: seq<Item>, h: Helpers)
    requires s.pc in {Change, Finish, GetFinished}
    ensures s.events == EventsOf(items) ==> Step(s, h).0.events == EventsOf(Note(items, s.pc, h))
  {
    if h.ret > 0 {
      EventsGrow(items, Message(s.pc, h));
      TellingStep(s, h);
    }
  }

  lemma TellingStep(s: State, h: Helpers)
    requires s.pc in {Change, Finish, GetFinished} && h.ret > 0
    ensures Step(s, h).0.events == s.events + EventOf(Message(s.pc, h))
  {
    match s.pc {
      case Change =>
      case Finish =>
      case GetFinished =>
    }
  }

  lemma TurnKeepsLink(w: Watched, h: Helpers)
    requires Linked(w)
    ensures Linked(Watched(Step(w.s, h).0, Note(w.items, w.s.pc, h)))
  {
    if w.s.pc in {Change, Finish, GetFinished} {
      TellingTurn(w.s, w.items, h);
    } else if w.s.pc !in {Before, Connect, Renegotiate} {
      QuietStep(w.s, h);
      QuietNote(w.items, w.s.pc, h);
    } else {
      StartTurn(w.s, w.items, h);
    }
  }

  lemma StartTurn(s: State, items: seq<Item>, h: Helpers)
    requires s.pc in {Before, Connect, Renegotiate}
    ensures Step(s, h).0.events == [] && Note(items, s.pc, h) == []
  {
  }

  /** What holds between iterations, and between calls */
  ghost predicate Sound(w: Watched) { Inv(w.s) && Linked(w) && exists k :: At(w.s, w.items, k) }

  lemma TurnKeepsSound(w: Watched, h: Helpers)
    requires Sound(w)
    ensures Sound(Watched(Step(w.s, h).0, Note(w.items, w.s.pc, h)))
  {
    var k :| At(w.s, w.items, k);
    var k' := TurnKeepsItems(w.s, w.items, h, k);
    StepKeepsInv(w.s, h);
    TurnKeepsLink(w, h);
  }

  lemma {:induction false} WatchKeepsSound(w: Watched, script: seq<Helpers>)
    requires Sound(w)
    ensures Sound(Watch(w, script))
    decreases |script|
  {
    if script != [] {
      TurnKeepsSound(w, script[0]);
      var (s1, outcome) := Step(w.s, script[0]);
      if outcome == GoOn { WatchKeepsSound(Watched(s1, Note(w.items, w.s.pc, script[0])), script[1..]); }
    }
  }

  lemma EnterKeepsSound(w: Watched)
    requires Sound(w)
    ensures Sound(w.(s := Enter(w.s)))
  {
    var k :| At(w.s, w.items, k);
    EnterKeepsInv(w.s);
    assert At(Enter(w.s), w.items, k);
  }

  lemma AskKeepsSound(w: Watched, move: bool)
    requires Sound(w)
    ensures Sound(w.(s := Perform(w.s, AskRenegotiation(move))))
  {
    var k :| At(w.s, w.items, k);
    assert At(Perform(w.s, AskRenegotiation(move)), w.items, k);
  }

  lemma {:induction false} RunKeepsSound(w: Watched, acts: seq<Act>)
    requires Sound(w)
    ensures Sound(WatchRun(w, acts))
    decreases |acts|
  {
    if acts != [] {
      match acts[0] {
        case Call(script) =>
          EnterKeepsSound(w);
          WatchKeepsSound(w.(s := Enter(w.s)), script);
        case AskRenegotiation(move) => AskKeepsSound(w, move);
      }
      RunKeepsSound(WatchAct(w, acts[0]), acts[1..]);
    }
  }

  const OPENING: Watched := Watched(INITIAL, [])

  /**
   * On every run, whatever the helpers do: when a call reports SSL_CB_HANDSHAKE_DONE, the messages read and sent
   * since SSL_CB_HANDSHAKE_START are, in this order, those of one of the protocol's handshakes.
   */
  lemma DoneIsHandshake(acts: seq<Act>, script: seq<Helpers>)
    requires OneCall(Run(INITIAL, acts), script).1
    ensures var w := WatchAct(WatchRun(OPENING, acts), Call(script));
            && w.s == OneCall(Run(INITIAL, acts), script).0
            && IsHandshake(w.items) && EventsOf(w.items) == w.s.events
  {
    var x := WatchRun(OPENING, acts);
    WatchRunIsRun(OPENING, acts);
    WatchIsLoop(x.(s := Enter(x.s)), script);
    assert At(INITIAL, [], Clues(0, false, false, ServerPart(false, false, 0), 0, SentFinish(false, false)));
    RunKeepsSound(OPENING, acts);
    EnterKeepsSound(x);
    WatchKeepsSound(x.(s := Enter(x.s)), script);
    LoopKeepsInv(Enter(x.s), script);
  }
}
