/**
 * The input message exchanged between peers: four `Uint16Array` words
 * `[kind, originPeer, value, slice]`, and what a received body becomes in
 * the command buffer.
 */
module Wire {
  import opened Wrappers

  /** One entry of a `Uint16Array`. */
  newtype u16 = x: int | 0 <= x < 0x1_0000

  /** The message kind of a player keystroke, the only kind the scene handles. */
  const KIND_INPUT: u16 := 0

  /**
   * The conversion JavaScript applies to an integer stored into a
   * `Uint16Array` (ToUint16): the residue modulo 2^16, so -1 becomes 65535.
   */
  function ToUint16(x: int): (r: u16)
    ensures (r as int - x) % 0x1_0000 == 0
    ensures 0 <= x < 0x1_0000 ==> r as int == x
  {
    (x % 0x1_0000) as u16
  }

  /**
   * A buffered command: the target slice (`undefined` when the body has
   * fewer than four words) and the whole received word array.
   */
  datatype Item = Item(slice: Option<u16>, command: seq<u16>)

  /** A buffered item that names a slice carries an origin and a value word. */
  predicate WellFormed(item: Item) {
    item.slice.Some? ==> |item.command| >= 4
  }

  /**
   * What `messageReceived` appends for a body read as 16-bit words: an item
   * for kind 0 (slice taken from word 3), nothing for any other kind or an
   * empty body.
   */
  function BufferedItem(body: seq<u16>): (r: Option<Item>)
    ensures r.Some? <==> |body| > 0 && body[0] == KIND_INPUT
    ensures r.Some? ==> r.value.command == body && WellFormed(r.value)
    ensures r.Some? && |body| >= 4 ==> r.value.slice == Some(body[3])
    ensures r.Some? && |body| < 4 ==> r.value.slice == None
  {
    if |body| > 0 && body[0] == KIND_INPUT then
      Some(Item(if |body| >= 4 then Some(body[3]) else None, body))
    else
      None
  }

  /**
   * The words of a local command as `update` fills them in:
   * `[0, myIndex, value, latest slice]`, each stored into a 16-bit entry.
   */
  function Outgoing(myIndex: int, value: u16, latestSlice: int): (w: seq<u16>)
    ensures |w| == 4 && w[0] == KIND_INPUT && w[2] == value
  {
    [KIND_INPUT, ToUint16(myIndex), value, ToUint16(latestSlice)]
  }

  /**
   * A command a peer sends is buffered by every receiver as an item for the
   * sender's latest slice reduced modulo 2^16, carrying the sender's index
   * and the value unchanged.
   */
  lemma SentCommandIsBuffered(myIndex: int, value: u16, latestSlice: int)
    ensures var w := Outgoing(myIndex, value, latestSlice);
      BufferedItem(w) == Some(Item(Some(ToUint16(latestSlice)), w))
      && w[1] == ToUint16(myIndex) && w[2] == value
  {
  }

  /**
   * Slices wrap: a receiver cannot tell apart commands sent at slices 2^16
   * apart, so the slice written after 65535 reads back as 0.
   */
  lemma SliceWrapsAround(myIndex: int, value: u16, latestSlice: int)
    ensures BufferedItem(Outgoing(myIndex, value, latestSlice + 0x1_0000))
         == BufferedItem(Outgoing(myIndex, value, latestSlice))
    ensures BufferedItem(Outgoing(myIndex, value, 0x1_0000)).value.slice == Some(0)
  {
  }
}
