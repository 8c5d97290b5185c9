/** The events a source delivers, and what can become of one. */
module Events {
  type Payload = seq<bv8>

  datatype Direction = DirSend | DirRecv | DirOther

  datatype Event = Event(direction: Direction, payload: Payload)

  datatype Verdict = Duplicate | Unparsed | NoRules | Dispatched
}
