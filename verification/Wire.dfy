/** Messages, frames and the four propagation protocols. */
module Wire {
  import opened Wrappers

  type Node = nat

  const UINT32: nat := 0x1_0000_0000

  /** A message id: the injecting node and its sequence counter. */
  datatype MessageId = MessageId(origin: Node, sequence: nat)

  /** hop and wave are the 32-bit fields Hop and HopWaveHop. */
  datatype Message = Message(id: MessageId, hop: nat, wave: nat)

  datatype Frame =
    | Data(message: Message)
    | IDontWant(control: MessageId)
  {
    function Id(): MessageId {
      match this
      case Data(message) => message.id
      case IDontWant(id) => id
    }
  }

  datatype Protocol =
    | BaseFlooding
    | DuplicateAware
    | IDontWantFlooding
    | HopWave(i: nat, f: real)
  {
    /** ValidateConfig: I at least 1, F in (0, 1]. */
    predicate Valid() {
      HopWave? ==> i >= 1 && 0.0 < f <= 1.0
    }
  }

  /** Hop++ on a uint32. */
  function NextHop(hop: nat): nat {
    (hop + 1) % UINT32
  }

  /** One processed message with its supplier; from is None for a local message. */
  datatype Item = Item(message: Message, from: Option<Node>)
}
