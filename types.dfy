/** lifx/lifx.go: the records a device reports and the colour presets. */
module LifxTypes {
  import opened Bytes
  import opened Wrappers

  /** Colour of a light: hue, saturation, brightness and colour temperature. */
  datatype HSBK = HSBK(hue: uint16, saturation: uint16, brightness: uint16, kelvin: uint16)

  /** The preset that turns a light off. */
  const Off: HSBK := HSBK(0, 0, 0, 0)

  /** The preset that turns a light on. */
  const On: HSBK := HSBK(65535, 65535, 32767, 65535)

  /** Power is a string type; the two values the code names. */
  const PowerOn: Str := [0x6F, 0x6E] // "on"
  const PowerOff: Str := [0x6F, 0x66, 0x66] // "off"

  /** `label` is a Dafny keyword, so the Label fields are called `name`. */
  datatype Group = Group(id: Bytes16, name: Str)

  datatype Location = Location(id: Bytes16, name: Str)

  /** Time statistics of a device. */
  datatype Info = Info(time: uint16, upTime: uint16, downTime: uint16)

  datatype Capabilities = Capabilities(hasColor: bool, hasIR: bool, hasMultiZone: bool)

  datatype Product = Product(
    id: uint32,
    name: Str,
    vendor: Str,
    version: uint32,
    capabilities: Option<Capabilities>)

  /** What a Get (101) reply carries, and what SetState is asked to apply. */
  datatype State = State(hsbk: Option<HSBK>, power: Str, name: Str)
}
