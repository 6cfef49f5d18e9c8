/** Names, packets and scalar types shared by the forwarder and the emulated link. */
module Ndn {

  datatype Option<+T> = None | Some(value: T)

  type Component = string

  /** A name is a sequence of components; `isPrefixOf` is Dafny's sequence prefix `<=`. */
  type Name = seq<Component>

  newtype Byte = b: int | 0 <= b < 256

  /** Clock readings, in milliseconds. */
  type Time = int

  type FaceId = int

  /** What the random engine yields for each face's device. */
  type Draws = FaceId -> nat

  newtype Nonce = n: int | 0 <= n < 0x1_0000_0000

  datatype Interest = Interest(name: Name, nonce: Nonce, lifetime: int, mustBeFresh: bool)

  datatype Data = Data(name: Name, freshness: int, wire: seq<Byte>)

  datatype Packet = InterestPacket(interest: Interest) | DataPacket(data: Data)

  /** The prefix the FIB manager registers for itself, on face 0. */
  const RIB_PREFIX: Name := ["localhost", "nfd", "rib"]

  const RIB_FACE: FaceId := 0

  const MAX_INT: int := 0x7FFF_FFFF
}
