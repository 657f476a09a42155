/**
 * lifx/frame.go: the four settings of the frame field (tagged and
 * addressable flags), each as the two bytes stored in a header.
 */
module Frames {
  import opened Bytes

  /** Tagged and addressable both false. */
  const NTNAFrame: Bytes2 := [0x00, 0x04]
  /** Tagged false, addressable true. */
  const NTAFrame: Bytes2 := [0x00, 0x14]
  /** Tagged true, addressable false. */
  const TNAFrame: Bytes2 := [0x00, 0x24]
  /** Tagged and addressable both true. */
  const TAFrame: Bytes2 := [0x00, 0x34]
}
