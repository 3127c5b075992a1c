/** The acknowledgement a request carries, and what it makes of the round held. */
module Acks {

  /** The header: absent, AckNew, AckPeek, or the last round processed. */
  datatype Ack = Silent | New | Peek | Last(session: string, round: nat)

  function Acknowledges(a: Ack): bool { a.New? || a.Last? }

  /** ackState.settle: whether the held round is committed rather than rolled back; a peek
      does neither. */
  function Commits(session: string, held: nat, a: Ack): bool {
    match a
    case Silent => true
    case New => true
    case Peek => false
    case Last(sn, r) => sn == session && r == held
  }
}
