# horus: the LIFX LAN codec and device engine, in Dafny

horus is a small HTTP service that controls LIFX light bulbs over the LIFX
LAN protocol. This project models its core:

- the message codec: the 34-byte header with its setters and control byte,
  the size-prefixed message and its factories, and the decoders of the
  state, group, location, info and version replies;
- the device engine: a `Lifx` device whose fields `Update`, `SetLabel`,
  `SetPower`, `SetHSBK`, `SetState` and `Toggle` overwrite after exchanging
  messages with the bulb;
- the selector logic of the API: `parseSelector`, which returns the shared
  table entry and writes the value into it, `sortBySelector`,
  `selector.String`, and `updateLifx`, which refreshes the registry of
  devices and stops at the first error;
- `tools.DecodeToString`, which strips NUL padding from a label field.

Go strings and byte slices are `seq<byte>`. The fixed arrays `[2]byte`,
`[4]byte`, `[8]byte` and `[16]byte` are subset types of it. The Go integer
widths are subset types of `int`, and every wrap-around is written out.

Objects whose fields the Go code updates in place are classes:
`Header`, `Message`, `Lifx`, `selector` and `API`. `Header`, `Message`
and `Lifx` have an abstraction function (`Data()` or `Snapshot()`) onto a
datatype, and `API` has `Values()`, the sequence of the values held by its
selector table. `selector` has none: its fields are read directly. Each
state-changing method is proved against a pure function of the old state,
and the protocol's properties are lemmas about those functions.

Parameters stand in for the program's environment:
- The process-wide `Source` is the parameter `source`.
- The product table read from `products.yaml` is a map parameter.
- The UDP transport is the parameter `net`: a function from address, port
  and request to reply or error.

In the files:
- `bytes.dfy`: integer widths, byte strings, and the little-endian
  conversions of `encoding/binary`.
- `tools.dfy`: `tools.DecodeToString`.
- `frames.dfy`: the frame constants of `lifx/frame.go`.
- `header.dfy`: `lifx/header.go`.
- `message.dfy`: `lifx/message.go`.
- `types.dfy`: the records and presets of `lifx/lifx.go`.
- `decode.dfy`: the reply decoders of `lifx/lifx.go`.
- `client.dfy`: the protocol names and the transport, from `client/client.go`.
- `device.dfy`: the `Lifx` device and its operations.
- `api.dfy`: `api/tools.go`, with the selector table of `api/api.go`.

Where the code and its comments disagree, the model follows the code:
- `Update` sends `GetGroup`, which is 51. The comment beside it says 53,
  which is `StateGroup`.
- `sortBySelector` checks the selector inside its loop over the devices. So
  with an empty registry every selector, `all` included, ends in
  "not found".
- `DecodeToInfo` reads only the low 16 bits of each 64-bit statistic, and
  `Info` has 16-bit fields.

## Model

| member | source | states |
|---|---|---|
| Bytes.PutUint16 | lifx/header.go:126-131 | the two bytes written, read back little-endian, are the value |
| Bytes.PutUint32 | lifx/message.go:171-176 | the four bytes written, read back little-endian, are the value |
| Bytes.PutUint16OfUint16 | lifx/lifx.go:468-471 | two bytes are determined by their little-endian value |
| Bytes.Uint16OfPutUint64 | lifx/lifx.go:511-513 | the first two bytes of a little-endian uint64 are its low 16 bits |
| Tools.DecodeToString | tools/tools.go:9-11 | the result has no NUL at either end, is no longer than the input, and is empty exactly when the input is all NUL |
| Tools.DecodeToStringSlice | tools/tools.go:9-11 | the input is a run of NULs, then the result, then a run of NULs |
| Tools.DecodeToStringOfPadded | tools/tools.go:9-11 | any NUL padding around a string with non-NUL ends is removed exactly |
| Tools.DecodeToStringIdempotent | tools/tools.go:9-11 | applying it twice is the same as once |
| Tools.DecodeToStringKeeps | tools/tools.go:9-11 | a string with non-NUL ends comes back unchanged |
| Tools.DecodeToStringKeepsInteriorZeros | tools/tools.go:9-11 | only the ends are trimmed: a run of NULs of any length between two non-NUL bytes survives any padding on either side |
| LifxHeader.DecodeAckRes | lifx/header.go:181-193 | ack is set unless the byte is 0x00 or 0x01; res is set unless it is 0x00 or 0x10; an unknown byte sets both |
| LifxHeader.EncodeAckRes | lifx/header.go:164-176 | the control byte is one of 0x00, 0x01, 0x10, 0x11, and decoding it gives back both flags |
| LifxHeader.EncodeDecodeAckRes | lifx/header.go:164-193 | on those four bytes, encoding inverts decoding |
| LifxHeader.EncodeHeader | lifx/header.go:135-161 | an encoded header is 34 bytes long |
| LifxHeader.EncodeHeaderLayout | lifx/header.go:135-161 | frame at 0, source at 2, target at 6, control byte at 20, sequence at 21, type at 30; every reserved byte is zero |
| LifxHeader.DecodeEncodeHeader | lifx/header.go:135-161 | the encoding is injective: reading the fields back at those offsets gives the header |
| LifxHeader.Header.constructor | lifx/header.go:71-81 | NewHeader: TAFrame, the process source, zero target, no flags, sequence 0, type 0 |
| LifxHeader.Header.Zero | lifx/message.go:126-128 | the zero header `&Header{}` |
| LifxHeader.Header.SetFrame | lifx/header.go:85-88 | changes the frame only and returns the same header |
| LifxHeader.Header.SetSource | lifx/header.go:92-95 | changes the source only and returns the same header |
| LifxHeader.Header.SetTarget | lifx/header.go:99-102 | changes the target only and returns the same header |
| LifxHeader.Header.IsAckRequired | lifx/header.go:105-108 | changes the ack flag only and returns the same header |
| LifxHeader.Header.IsResRequired | lifx/header.go:111-114 | changes the res flag only and returns the same header |
| LifxHeader.Header.SetSequence | lifx/header.go:120-123 | changes the sequence only and returns the same header |
| LifxHeader.Header.SetMessageType | lifx/header.go:126-131 | stores the type little-endian, so it reads back as the type, and changes nothing else |
| LifxHeader.Header.EncodeToBytes | lifx/header.go:135-161 | the appended bytes have the layout above, and their length is getSize |
| LifxHeader.Header.GetSize | lifx/header.go:196-198 | the size is the length of the encoded header |
| LifxMessage.RequestHeader | lifx/message.go:53-60 | every factory header is TAFrame, response required, no ack, sequence 0x10, zero target, the given type |
| LifxMessage.EncodeHSBK | lifx/message.go:153-169 | 8 bytes holding hue, saturation, brightness and kelvin little-endian, in that order |
| LifxMessage.EncodeDuration | lifx/message.go:171-176 | 4 bytes holding the duration little-endian |
| LifxMessage.ColorPayload | lifx/message.go:33-49 | 13 bytes: a zero byte, the four colour fields, the duration |
| LifxMessage.PowerPayload | lifx/message.go:63-78 | FF FF exactly for "on", 00 00 for every other string |
| LifxMessage.LabelPayload | lifx/message.go:81-93 | 32 bytes: the label's first bytes, then zeros |
| LifxMessage.LabelPayloadDecodes | lifx/message.go:81-93 | a label of at most 32 bytes with non-NUL ends is read back unchanged from its payload |
| LifxMessage.SizePrefix | lifx/message.go:109-116 | the size field reads back as 2 + 34 + payload length, modulo 65536 |
| LifxMessage.EncodeMessageLayout | lifx/message.go:96-106 | an encoded message is size, then the 34 header bytes, then the payload; its size field is its length modulo 65536 |
| LifxMessage.QueryIs36Bytes | lifx/message.go:53-60 | a request without payload is 36 bytes long and says so |
| LifxMessage.DecodeToMessageRecoversAddressing | lifx/message.go:120-145 | DecodeToMessage recovers the size, frame, source and target of an encoded message |
| LifxMessage.DecodeToMessageReadsReserved | lifx/message.go:136-142 | on every encoded message it reports no ack, no response, sequence 0 and type 0, and drops the payload |
| LifxMessage.DecodeToMessageIsNotInverse | lifx/message.go:120-145 | so it never gives back a request a factory built |
| LifxMessage.DecodeMessage | lifx/message.go:120-145 | the decoder as intended accepts exactly the byte strings of at least 36 bytes whose size field is their length |
| LifxMessage.DecodeMessageInvertsEncode | lifx/message.go:96-145 | the intended decoder inverts EncodeToBytes for every message that fits the 16-bit size |
| LifxMessage.Message.constructor | lifx/message.go:23-29 | NewMessage: zero size, a fresh default header, empty payload |
| LifxMessage.Message.WithHeader | lifx/message.go:126-128 | a message around the given header, with zero size and no payload |
| LifxMessage.Message.SetPayload | lifx/message.go:148-151 | replaces the payload and returns the same message |
| LifxMessage.Message.UpdateSize | lifx/message.go:109-116 | stores and returns 2 + 34 + payload length, computed in uint16 |
| LifxMessage.Message.EncodeToBytes | lifx/message.go:96-106 | recomputes the size, then returns the encoded message |
| LifxMessage.EncodeTwice | lifx/message.go:96-116 | encoding twice gives the same bytes and leaves header and payload alone |
| LifxMessage.SetColorMessage | lifx/message.go:33-49 | a fresh SetColor (102) request carrying the colour payload |
| LifxMessage.GetMessageWithoutPayload | lifx/message.go:53-60 | a fresh request of the given type with no payload |
| LifxMessage.SetPowerDeviceMessage | lifx/message.go:63-78 | a fresh SetPowerDevice (21) request with the power payload |
| LifxMessage.SetLabelMessage | lifx/message.go:81-93 | a fresh SetLabel (24) request with the 32-byte label payload |
| LifxMessage.DecodeToMessage | lifx/message.go:120-145 | a fresh message holding the fields read at offsets 0-18, as written |
| LifxDecode.DecodeToHSBK | lifx/lifx.go:460-480 | succeeds exactly on 8 bytes, fails with NotValid otherwise, and re-encodes to its input |
| LifxDecode.DecodeEncodeHSBK | lifx/lifx.go:460-480 | decoding an encoded colour gives it back |
| LifxDecode.DecodeToState | lifx/lifx.go:432-456 | on a long enough reply it succeeds: the colour from bytes n-52..n-44, "on" exactly when bytes n-42..n-40 are FF FF, otherwise "off", and the trimmed label from n-40..n-8 |
| LifxDecode.DecodeStateReply | lifx/lifx.go:432-456 | a reply ending with a State payload gives back its colour, "on" exactly for level 65535, and its trimmed label |
| LifxDecode.DecodeGroupReply | lifx/lifx.go:484-502 | a reply ending with a StateGroup payload gives back its id and trimmed label |
| LifxDecode.DecodeLocationReply | lifx/lifx.go:525-543 | a reply ending with a StateLocation payload gives back its id and trimmed label |
| LifxDecode.DecodeInfoReply | lifx/lifx.go:506-521 | a StateInfo reply gives the low 16 bits of time, uptime and downtime |
| LifxDecode.DecodeVersionReply | lifx/lifx.go:547-556 | a StateVersion reply gives the table's product for its product id, and nil for an unknown id |
| LifxDecode.DecodeToGroup | lifx/lifx.go:484-502 | the id is bytes n-56..n-40 and the label is at most 32 bytes with no NUL at either end |
| LifxDecode.DecodeToLocation | lifx/lifx.go:525-543 | the id is bytes n-56..n-40 and the label is at most 32 bytes with no NUL at either end |
| LifxDecode.DecodeToInfo | lifx/lifx.go:506-521 | time, uptime and downtime are the little-endian 16-bit values at n-24, n-16 and n-8 |
| LifxDecode.DecodeToProduct | lifx/lifx.go:547-556 | a product is found exactly when the 32-bit id in the last 8 bytes is in the table, and it is that entry |
| LifxDevice.SameExchange | lifx/lifx.go:193-217 | Send's reply depends only on address, port, protocol and client, and creating the client does not change it |
| LifxDevice.SendChecks | lifx/lifx.go:193-217 | connecting changes only the client, and a second time nothing; a client exists afterwards exactly when one existed or the protocol is "udp"; a successful exchange had a client, an address and a port |
| LifxDevice.RefreshRequests | lifx/lifx.go:222-305 | Update sends Get, GetGroup, GetInfo, GetLocation and GetVersion, in that order |
| LifxDevice.RefreshFromVersion | lifx/lifx.go:288-304 | from the GetVersion step: the refresh fails with the first failed reply and is connected only when none fails; the fields of steps that succeeded hold what their replies decode to, and all other fields are unchanged |
| LifxDevice.RefreshFromLocation | lifx/lifx.go:273-304 | from the GetLocation step on: the refresh fails with the first failed reply and is connected only when none fails; the fields of steps that succeeded hold what their replies decode to, and all other fields are unchanged |
| LifxDevice.RefreshFromInfo | lifx/lifx.go:258-304 | from the GetInfo step on: the refresh fails with the first failed reply and is connected only when none fails; the fields of steps that succeeded hold what their replies decode to, and all other fields are unchanged |
| LifxDevice.RefreshFromGroup | lifx/lifx.go:243-304 | from the GetGroup step on: the refresh fails with the first failed reply and is connected only when none fails; the fields of steps that succeeded hold what their replies decode to, and all other fields are unchanged |
| LifxDevice.RefreshFromGet | lifx/lifx.go:225-304 | from the Get step on: the refresh fails with the first failed reply and is connected only when none fails; the fields of steps that succeeded hold what their replies decode to, and all other fields are unchanged |
| LifxDevice.UpdateConnectedIffAllSucceed | lifx/lifx.go:222-305 | after Update the device is connected exactly when all five exchanges succeed, and then there is no error |
| LifxDevice.UpdateRepliesFit | lifx/lifx.go:222-305 | every reply Update decodes, up to its first failure, is long enough for its decoder |
| LifxDevice.UpdatePartialFailure | lifx/lifx.go:222-241 | a failed Update returns the first failing exchange's error and leaves the device disconnected; colour, label and power come from the Get reply exactly when it succeeded |
| LifxDevice.UpdateStopsBeforeLaterSteps | lifx/lifx.go:243-301 | group, info, location and product change only when their own step and every earlier step succeeded, and then hold what that reply decodes to |
| LifxDevice.SetLabelAgreesWithPayload | lifx/lifx.go:337-348 | SetLabel succeeds exactly when Send does; a success stores the label asked for; a failure stores nothing; no other field changes; a label of at most 32 bytes without NULs at its ends is what the bulb reads back from the payload; a longer label is cut to 32 bytes in the payload, so the stored name differs from the one the bulb reads back |
| LifxDevice.SetPowerAgreesWithPayload | lifx/lifx.go:351-362 | SetPower succeeds exactly when Send does; a success stores the string given, which is "on" exactly when the level sent is 65535; no other field changes |
| LifxDevice.SetHSBKTakesAskedColourIffReported | lifx/lifx.go:366-385 | after a successful SetHSBK the device holds the requested colour exactly when the reply reports it, and its power is "on" or "off" |
| LifxDevice.SetStateEmptyIsNoOp | lifx/lifx.go:308-334 | an empty state sends nothing and changes nothing |
| LifxDevice.SetStateStopsAtFirstError | lifx/lifx.go:308-334 | a failed label step returns its error and the device as it was, connected; a failed power step returns its error and that device with only the new label stored |
| LifxDevice.SetStateKeepsEarlierSteps | lifx/lifx.go:308-334 | once label and power succeeded, the device holds the new (or, when empty, old) label and power; with no colour asked for that is the result; a failed colour step returns its error and that device, connected |
| LifxDevice.ToggleColor | lifx/lifx.go:391-414 | the colour sent is Off exactly for a light that is on with brightness above 0; otherwise it is the On preset with the given brightness |
| LifxDevice.ToggleTakesReplyState | lifx/lifx.go:391-428 | a failed Toggle changes only the client; a successful one takes the colour encoded at n-52..n-44 of the reply, the power the reply reports and the trimmed label at n-40..n-8, and changes no other field than these and the client |
| LifxDevice.Lifx.constructor | lifx/lifx.go:19-61 | a configured device: UUID, label, address, port and protocol, not connected, no client |
| LifxDevice.Lifx.Send | lifx/lifx.go:193-217 | resolves the client, then returns the exchange of the encoded message; when the exchange is reached the message's size field is rewritten to the size prefix of its payload, otherwise it is unchanged; header and payload are never changed |
| LifxDevice.Exchange | lifx/lifx.go:193-217 | no client gives NotFound; a client with an empty address or port gives NotValid; otherwise the transport's answer to the request |
| LifxDevice.Lifx.Update | lifx/lifx.go:222-305 | the new state and error are those of the five-step refresh of the old state |
| LifxDevice.Lifx.RefreshState | lifx/lifx.go:226-241 | step Get: on success colour, label and power take the decoded state |
| LifxDevice.Lifx.RefreshGroup | lifx/lifx.go:243-256 | step GetGroup: on success the group takes the decoded group |
| LifxDevice.Lifx.RefreshInfo | lifx/lifx.go:258-271 | step GetInfo: on success the info takes the decoded info |
| LifxDevice.Lifx.RefreshLocation | lifx/lifx.go:273-286 | step GetLocation: on success the location takes the decoded location |
| LifxDevice.Lifx.RefreshProduct | lifx/lifx.go:288-301 | step GetVersion: on success the product takes the table's entry for the id, or nil |
| LifxDevice.Lifx.SetLabel | lifx/lifx.go:337-348 | the new state and error are SetLabel's outcome on the old state |
| LifxDevice.Lifx.SetPower | lifx/lifx.go:351-362 | the new state and error are SetPower's outcome on the old state |
| LifxDevice.Lifx.SetHSBK | lifx/lifx.go:366-385 | the new state and error are SetHSBK's outcome on the old state |
| LifxDevice.Lifx.SetState | lifx/lifx.go:308-334 | the new state and error are SetState's outcome on the old state |
| LifxDevice.Lifx.Toggle | lifx/lifx.go:391-428 | the new state and error are Toggle's outcome on the old state |
| Api.NamesAreDistinct | api/api.go:64-104 | the eight selector names are distinct, non-empty and free of ':' |
| Api.Split | api/tools.go:53 | strings.Split gives at least one piece |
| Api.SplitCounts | api/tools.go:53-59 | Split gives one more piece than there are separators, and no piece holds one |
| Api.JoinSplit | api/tools.go:53 | joining the pieces with ':' restores the string |
| Api.SplitNameValue | api/tools.go:53-59 | `name:value` without further separators splits into exactly name and value |
| Api.LookupFrom | api/tools.go:36-47 | the first table index from j on with that name, or none when no entry has it |
| Api.LookupName | api/tools.go:62-68 | each table entry is found at its own index |
| Api.Parse | api/tools.go:23-72 | the empty string gives `all`; an accepted selector string is empty, a static name, or `name:value` for the entry returned; errors are NotValid or NotFound |
| Api.ParseName | api/tools.go:35-50 | a bare static name gives its entry; a bare dynamic name is NotValid |
| Api.ParseNameValue | api/tools.go:52-68 | `name:value` gives that entry and that value, for every entry, `all` included |
| Api.ParseTooManyColons | api/tools.go:53-59 | two or more separators are NotValid |
| Api.ParseUnknownName | api/tools.go:35-71 | a name outside the table is NotFound, with or without a value; with a value the name may be empty, as in ":v" |
| Api.Selector.constructor | api/api.go:64-104 | an entry with its name and kind and an empty value |
| Api.Selector.String | api/tools.go:132-138 | the name, followed by a colon and the value exactly when the selector is dynamic |
| Api.Filter | api/tools.go:84-122 | every device kept is in the registry and matches the selector, and none is added |
| Api.Matches | api/tools.go:88-116 | only a filtering selector (label, uuid, group_id, location_id, group, location) can match a device |
| Api.Resolve | api/tools.go:77-129 | a resolved list is non-empty and holds only registry devices |
| Api.FilterAppend | api/tools.go:84-122 | filtering a concatenation filters each part in turn, so registry order is kept |
| Api.FilterMembers | api/tools.go:88-116 | a device is kept exactly when it is in the registry and its label, UUID, group label or location label equals the value |
| Api.ResolveMeans | api/tools.go:77-129 | a resolved list is non-empty; an empty registry gives NotFound for every selector; `all` gives the registry; the id selectors are NotImplemented; unknown names are NotFound; a label, uuid, group or location selector gives exactly the matching devices, and NotFound when none match |
| Api.UpdateStopsAtFirstError | api/tools.go:11-20 | updateLifx refreshes the devices in order up to the first one that fails, returns that device's error, and leaves the later devices untouched |
| Api.Api.constructor | api/api.go:119-127 | the table of eight fresh entries in the order of api.go, with empty values |
| Api.Api.Store | api/tools.go:64-65 | writes the value into one entry, which no other entry shares |
| Api.Api.Find | api/tools.go:36-47 | the loop over the table finds the first entry with that name |
| Api.Api.ParseSelector | api/tools.go:23-72 | returns the table entry itself, or the error of Parse; writes the parsed value into that entry and changes no other value |
| Api.Api.SortBySelector | api/tools.go:77-129 | returns what the selector resolves to on the registry |
| Api.Api.UpdateDevice | api/tools.go:12-16 | updates one registry device; the others keep their state |
| Api.Api.UpdateLifx | api/tools.go:11-20 | the registry's new states, and the error returned, are those of the in-order update that stops at the first error |
| Api.StringParsesBack | api/tools.go:132-138 | a printed entry parses back to itself, with its value for a dynamic entry |
| Api.AllPrintsWithoutValue | api/tools.go:132-138 | `all:x` is accepted and stores x, yet `all` always prints as its bare name |

## Left out

- The UDP client (`client/udp/udp.go`), its deadline and its reply truncation are left out. The transport is the parameter `net`.
- The HTTP handlers, the OpenAPI setup, configuration loading and `cmd/horus` are left out. The registry and the product table are parameters.
- `LoadProducts` is left out: it reads a YAML file. The table it fills is a map parameter.
- `Header.String`, logging and the text of annotated errors are left out. Only the error kinds `NotFound`, `NotValid` and `NotImplemented` are kept, plus a transport code.
- The `Infrared` field is left out: it is a float that no operation here touches.
- Concurrency is left out: the HTTP server can run handlers at the same time, and the model is sequential.
- `Address` is an opaque byte string, not a `net.IP`. Send's empty-address check is modelled on that string.
- The `Label` fields are called `name`, because `label` is a Dafny keyword.
- LifxDecode.DecodeToState: the decoders slice at offsets counted back from the end and never check the length, so a short reply panics in Go. Here the reply lengths are preconditions, and so are the reply lengths the device operations decode.
- LifxDevice.Lifx.Update: it requires that replies it decodes be long enough (`RefreshDecodable`). The steps are split into the helper methods `RefreshState` to `RefreshProduct`.
- LifxDevice.Lifx.SetHSBK: the same precondition on its reply, and likewise for SetState and Toggle.
- LifxDevice.Lifx.Toggle: requires a colour whenever the power is "on", because the source reads `HSBK.Brightness` through a pointer.
- Api.Matches: requires a group or location on every device a group or location selector reads. The source dereferences those pointers.
- Api.Api.UpdateLifx: requires that the registry lists no device twice, so that each refresh changes one device only. `Refresh` gives no outcome where the source would panic on a short reply.
- Send's check that the encoded message is non-empty is left out. It can never fail, because an encoded message is at least 36 bytes (`EncodeMessageLayout`).
- DecodeToState keeps the error branch of its colour decode and proves it unreachable, because the colour slice is always 8 bytes. What is left out is the callers' check of that error, which can then never fire.
- The package-level `all` selector is left out as a separate object. parseSelector returns it for the empty string, and the model returns `selectors[0]`, the same object in api.go.
- Api.ResolveMeans: the NotImplemented messages of sortBySelector all name `scene_id`. Error texts are not modelled.

## Findings

| source | as written | input that shows it | evidently intended | confidence | as-written member | corrected member |
|---|---|---|---|---|---|---|
| lifx/message.go:136-142 | DecodeToMessage reads the control byte at offset 16, the sequence at 17, one type byte at 18, and copies the payload into a nil slice | any message from GetMessageWithoutPayload(Get): its flags and type decode as false, false and 0, and its payload is lost | control byte at 22, sequence at 23, type at 32-33, payload from 36, as EncodeToBytes writes them | high, not executed | LifxMessage.DecodeToMessageIsNotInverse | LifxMessage.DecodeMessageInvertsEncode |
