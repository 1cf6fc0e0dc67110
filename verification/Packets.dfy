/**
 The packets of RFC 1350 and RFC 2347, as far as a transfer distinguishes them.
 */
module Packets {
  import opened BlockNumbers
  import opened FileBlocks

  /** Payload of a full DATA packet when no block size has been agreed on. */
  const DEFAULT_BLKSIZE: uint16 := 512

  datatype Packet =
    | Data(block: uint16, payload: seq<byte>)
    | Ack(block: uint16)
    | Oack
    | Error
    | Request
}
