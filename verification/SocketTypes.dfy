module SocketTypes {
  import opened Common

  datatype SocketType =
    | Pair | Pub | Sub | Req | Rep | Dealer | Router | Pull | Push | Xpub | Xsub | Stream
    | Server | Client | Radio | Dish | Gather | Scatter | Dgram | Peer | Channel

  /** `inproc_types_compatible`. */
  predicate Compatible(a: SocketType, b: SocketType) {
    match (a, b)
    case (Pair, Pair) => true
    case (Push, Pull) => true
    case (Pull, Push) => true
    case (Dealer, Router) => true
    case (Router, Dealer) => true
    case (Req, Rep) => true
    case (Rep, Req) => true
    case (Server, Client) => true
    case (Client, Server) => true
    case (Pub, Sub) => true
    case (Sub, Pub) => true
    case (Xpub, Xsub) => true
    case (Xsub, Xpub) => true
    case (Stream, Stream) => true
    case (Channel, Channel) => true
    case (Peer, Peer) => true
    case (Radio, Dish) => true
    case (Dish, Radio) => true
    case (Scatter, Gather) => true
    case (Gather, Scatter) => true
    case _ => false
  }

  /** The other end of each pattern; DGRAM has none. */
  function Partner(t: SocketType): Option<SocketType> {
    match t
    case Pair => Some(Pair)
    case Stream => Some(Stream)
    case Channel => Some(Channel)
    case Peer => Some(Peer)
    case Pub => Some(Sub)
    case Sub => Some(Pub)
    case Xpub => Some(Xsub)
    case Xsub => Some(Xpub)
    case Req => Some(Rep)
    case Rep => Some(Req)
    case Dealer => Some(Router)
    case Router => Some(Dealer)
    case Push => Some(Pull)
    case Pull => Some(Push)
    case Server => Some(Client)
    case Client => Some(Server)
    case Radio => Some(Dish)
    case Dish => Some(Radio)
    case Scatter => Some(Gather)
    case Gather => Some(Scatter)
    case Dgram => None
  }

  /** Each type fits exactly its partner, which fits it in turn; no XPUB fits a SUB. */
  lemma CompatibleIff(a: SocketType, b: SocketType)
    ensures Compatible(a, b) <==> Partner(a) == Some(b)
    ensures Compatible(a, b) <==> Compatible(b, a)
  {
  }
}
