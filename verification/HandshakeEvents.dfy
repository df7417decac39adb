/** What a handshake must have done before it may be called complete. */
module HandshakeEvents {
  datatype Event = SentCcs | SentFinished | PeerFinished

  /** What an iteration of a driver's loop ends with: go round again, return, or report completion and return. */
  datatype Outcome = GoOn | Leave | Done

  /** The side that finishes second has seen the peer's Finished before its own ChangeCipherSpec. */
  const SECOND: seq<Event> := [PeerFinished, SentCcs, SentFinished]
  const FIRST: seq<Event> := [SentCcs, SentFinished, PeerFinished]

  /** A client finishes second exactly when it resumes a session. */
  function ClientOrder(resumed: bool): seq<Event> { if resumed then SECOND else FIRST }

  function ServerOrder(resumed: bool): seq<Event> { if resumed then FIRST else SECOND }
}
