/** Mutable message objects, as the server and the cache hand them around. */
module MessageObjects {
  import opened DnsMessages

  /** A message structure in memory; setting one of its fields updates the structure in place.
      Its sections are values, so a copy shares nothing with the original. */
  class Message {
    var value: Msg

    constructor (m: Msg)
      ensures value == m
    {
      value := m;
    }

    method Copy() returns (m: Message)
      ensures fresh(m) && m.value == value
    {
      m := new Message(value);
    }
  }
}
