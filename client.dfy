/**
 * client/client.go: the transport a device sends its requests through.
 * The network itself is not modelled: a Network is an oracle that maps the
 * destination address, the port and the request bytes to either the reply
 * bytes or an error.
 */
module Client {
  import opened Bytes
  import opened Wrappers
  import opened Errors

  /** The protocol tag of the one transport that exists. */
  const UDP: Str := [0x75, 0x64, 0x70] // "udp"

  /** A client handle; only the UDP client exists. */
  datatype ClientKind = UdpClient

  /** client.Send(address, port, packet). */
  type Network = (Str, Str, seq<byte>) -> Result<seq<byte>, Error>
}
