/**
 * lifx/lifx.go: a LIFX device and the operations that talk to it. The
 * device is a class whose fields the operations overwrite; each method is
 * proved against a pure function on a Device snapshot, and the properties
 * of the refresh and set sequences are lemmas about those functions.
 */
module LifxDevice {
  import opened Bytes
  import opened Wrappers
  import opened Errors
  import opened LifxHeader
  import opened LifxTypes
  import opened LifxMessage
  import opened LifxDecode
  import opened Client

  /** The fields of a Lifx device, as values. */
  datatype Device = Device(
    uuid: Str,
    name: Str,
    connected: bool,
    power: Str,
    hsbk: Option<HSBK>,
    group: Option<Group>,
    product: Option<Product>,
    info: Option<Info>,
    location: Option<Location>,
    address: Str,
    port: Str,
    protocol: Str,
    client: Option<ClientKind>)

  /** The result of an operation: the device afterwards and the error it returned, if any. */
  datatype Outcome = Outcome(device: Device, err: Option<Error>)

  /** Send creates the missing client when the protocol is "udp", whatever happens next. */
  function Connect(d: Device): Device
  {
    if d.client.None? && d.protocol == UDP then d.(client := Some(UdpClient)) else d
  }

  /** The reply Send returns for a request, or the error that stops it before the network. */
  function Exchange(d: Device, net: Network, request: seq<byte>): (r: Result<seq<byte>, Error>)
    ensures Connect(d).client.None? ==> r == Err(NotFound)
    ensures Connect(d).client.Some? && (|d.address| == 0 || |d.port| == 0) ==> r == Err(NotValid)
    ensures Connect(d).client.Some? && |d.address| > 0 && |d.port| > 0 ==> r == net(d.address, d.port, request)
  {
    if d.client.None? && d.protocol != UDP then Err(NotFound)
    else if |d.address| == 0 then Err(NotValid)
    else if |d.port| == 0 then Err(NotValid)
    else net(d.address, d.port, request)
  }

  /** Send's reply depends only on the address, port, protocol and client, and creating the client does not change it. */
  lemma SameExchange(d: Device, e: Device, net: Network, request: seq<byte>)
    requires e.address == d.address && e.port == d.port && e.protocol == d.protocol
    requires e.client == d.client || e.client == Connect(d).client
    ensures Exchange(e, net, request) == Exchange(d, net, request)
  {
  }

  /**
   * Send's checks, in order: without a client and a "udp" protocol it fails
   * with NotFound; otherwise it has a client, and an empty address or port
   * fails with NotValid before anything is sent. Connect changes the client
   * only, and only once.
   */
  lemma SendChecks(d: Device, net: Network, request: seq<byte>)
    ensures Connect(d) == d.(client := Connect(d).client)
    ensures Connect(Connect(d)) == Connect(d)
    ensures Connect(d).client.Some? <==> d.client.Some? || d.protocol == UDP
    ensures Exchange(d, net, request).Ok? ==> Connect(d).client.Some? && |d.address| > 0 && |d.port| > 0
  {
  }

  /** The bytes a factory message encodes to. */
  function Request(source: Bytes4, t: MessageType, payload: seq<byte>): seq<byte>
  {
    EncodeMessage(RequestHeader(source, t), payload)
  }

  /** The reply, if there is one, is at least n bytes long. */
  predicate Fits(r: Result<seq<byte>, Error>, n: nat)
  {
    r.Ok? ==> |r.value| >= n
  }

  /** The fields a decoded State overwrites. */
  function ApplyState(d: Device, s: State): Device
  {
    d.(hsbk := s.hsbk, name := s.name, power := s.power)
  }

  /** The five requests of Update, in the order it sends them. */
  const RefreshTypes: seq<MessageType> := [Get, GetGroup, GetInfo, GetLocation, GetVersion]

  /** The reply length each step of Update decodes. */
  const RefreshSizes: seq<nat> := [StateSize, GroupSize, InfoSize, GroupSize, VersionSize]

  /** The five requests of Update as bytes. */
  function RefreshRequests(source: Bytes4): (qs: seq<seq<byte>>)
    ensures |qs| == 5
    ensures forall i | 0 <= i < 5 :: qs[i] == Request(source, RefreshTypes[i], [])
  {
    [Request(source, Get, []), Request(source, GetGroup, []), Request(source, GetInfo, []),
     Request(source, GetLocation, []), Request(source, GetVersion, [])]
  }

  /** The replies the requests qs receive (only the configuration of d decides them). */
  function RefreshReplies(d: Device, net: Network, qs: seq<seq<byte>>): (rs: seq<Result<seq<byte>, Error>>)
    requires |qs| == 5
    ensures |rs| == 5
    ensures forall i | 0 <= i < 5 :: rs[i] == Exchange(d, net, qs[i])
  {
    seq(5, i requires 0 <= i < 5 => Exchange(d, net, qs[i]))
  }

  /** The index of the first failed reply from index j on, or |rs| when none fails. */
  function FirstFailure(rs: seq<Result<seq<byte>, Error>>, j: nat): (k: nat)
    requires j <= |rs|
    decreases |rs| - j
    ensures j <= k <= |rs|
    ensures forall i | j <= i < k :: rs[i].Ok?
    ensures k < |rs| ==> rs[k].Err?
  {
    if j == |rs| || rs[j].Err? then j else FirstFailure(rs, j + 1)
  }

  /** Step j of Update stores what it decodes from its reply. */
  function RefreshStep(prev: Device, j: nat, reply: seq<byte>, products: map<uint32, Product>): Device
    requires j < 5 && |reply| >= RefreshSizes[j]
  {
    if j == 0 then ApplyState(prev, DecodeToState(reply).value)
    else if j == 1 then prev.(group := Some(DecodeToGroup(reply)))
    else if j == 2 then prev.(info := Some(DecodeToInfo(reply)))
    else if j == 3 then prev.(location := Some(DecodeToLocation(reply)))
    else prev.(product := DecodeToProduct(reply, products))
  }

  /** Every reply Update decodes from step j on is long enough for its decoder (the source never checks). */
  predicate RefreshFits(dev: Device, j: nat, net: Network, qs: seq<seq<byte>>, products: map<uint32, Product>)
    requires j <= 5 && |qs| == 5
    decreases 5 - j
  {
    j == 5 ||
    var r := Exchange(dev, net, qs[j]);
    Fits(r, RefreshSizes[j]) && (r.Ok? ==> RefreshFits(RefreshStep(Connect(dev), j, r.value, products), j + 1, net, qs, products))
  }

  /** Steps j to 4 of Update, from device dev: the first failed Send ends it with that error. */
  function RefreshFrom(dev: Device, j: nat, net: Network, qs: seq<seq<byte>>, products: map<uint32, Product>): Outcome
    requires j <= 5 && |qs| == 5 && RefreshFits(dev, j, net, qs, products)
    decreases 5 - j
  {
    if j == 5 then Outcome(dev.(connected := true), None) else
    var r := Exchange(dev, net, qs[j]);
    if r.Err? then Outcome(Connect(dev), Some(r.error))
    else RefreshFrom(RefreshStep(Connect(dev), j, r.value, products), j + 1, net, qs, products)
  }

  /** The replies of Update are long enough to decode. */
  predicate RefreshDecodable(d: Device, net: Network, source: Bytes4, products: map<uint32, Product>)
  {
    RefreshFits(d.(connected := false), 0, net, RefreshRequests(source), products)
  }

  /** Update: the device is marked disconnected, then the five steps run in order. */
  function UpdateOutcome(d: Device, net: Network, source: Bytes4, products: map<uint32, Product>): Outcome
    requires RefreshDecodable(d, net, source, products)
  {
    RefreshFrom(d.(connected := false), 0, net, RefreshRequests(source), products)
  }

  /** dev sends through the same link as d, so every request gets the reply d would get. */
  predicate SameLink(d: Device, dev: Device)
  {
    && dev.address == d.address && dev.port == d.port && dev.protocol == d.protocol
    && (dev.client == d.client || dev.client == Connect(d).client)
  }

  /**
   * What steps j to 4 of Update do when run from dev: every reply decoded
   * is long enough; the outcome fails with the first failed reply and is
   * connected only when none fails; the fields of the steps that ran and
   * succeeded hold what they decoded, and every other field is that of dev.
   */
  predicate RefreshFacts(d: Device, dev: Device, j: nat, net: Network, qs: seq<seq<byte>>, products: map<uint32, Product>)
    requires j <= 5 && |qs| == 5 && RefreshFits(dev, j, net, qs, products)
  {
    var rs := RefreshReplies(d, net, qs);
    var k := FirstFailure(rs, j);
    var o := RefreshFrom(dev, j, net, qs, products);
    && (forall i | j <= i < k :: |rs[i].value| >= RefreshSizes[i])
    && (o.err.None? <==> k == 5)
    && (o.device.connected <==> k == 5)
    && (k < 5 ==> o.err == Some(rs[k].error))
    && (j == 0 < k ==> var s := DecodeToState(rs[0].value).value;
                       o.device.hsbk == s.hsbk && o.device.name == s.name && o.device.power == s.power)
    && (j > 0 || k == 0 ==> o.device.hsbk == dev.hsbk && o.device.name == dev.name && o.device.power == dev.power)
    && o.device.group == (if j <= 1 < k then Some(DecodeToGroup(rs[1].value)) else dev.group)
    && o.device.info == (if j <= 2 < k then Some(DecodeToInfo(rs[2].value)) else dev.info)
    && o.device.location == (if j <= 3 < k then Some(DecodeToLocation(rs[3].value)) else dev.location)
    && o.device.product == (if j <= 4 < k then DecodeToProduct(rs[4].value, products) else dev.product)
    && o.device.uuid == dev.uuid && o.device.address == dev.address && o.device.port == dev.port
    && o.device.protocol == dev.protocol && (j < 5 ==> o.device.client == Connect(dev).client)
  }

  /** RefreshFacts hold from the GetVersion step on. */
  lemma RefreshFromVersion(d: Device, dev: Device, net: Network, qs: seq<seq<byte>>, products: map<uint32, Product>)
    requires |qs| == 5 && RefreshFits(dev, 4, net, qs, products) && !dev.connected && SameLink(d, dev)
    ensures RefreshFacts(d, dev, 4, net, qs, products)
  {
    var rs := RefreshReplies(d, net, qs);
    SameExchange(d, dev, net, qs[4]);
    var r := Exchange(dev, net, qs[4]);
    assert r == rs[4];
    if r.Ok? {
        assert FirstFailure(RefreshReplies(d, net, qs), 5) == 5;
    }
  }

  /** RefreshFacts hold from the GetLocation step on. */
  lemma RefreshFromLocation(d: Device, dev: Device, net: Network, qs: seq<seq<byte>>, products: map<uint32, Product>)
    requires |qs| == 5 && RefreshFits(dev, 3, net, qs, products) && !dev.connected && SameLink(d, dev)
    ensures RefreshFacts(d, dev, 3, net, qs, products)
  {
    var rs := RefreshReplies(d, net, qs);
    SameExchange(d, dev, net, qs[3]);
    var r := Exchange(dev, net, qs[3]);
    assert r == rs[3];
    if r.Ok? {
        RefreshFromVersion(d, RefreshStep(Connect(dev), 3, r.value, products), net, qs, products);
    }
  }

  /** RefreshFacts hold from the GetInfo step on. */
  lemma RefreshFromInfo(d: Device, dev: Device, net: Network, qs: seq<seq<byte>>, products: map<uint32, Product>)
    requires |qs| == 5 && RefreshFits(dev, 2, net, qs, products) && !dev.connected && SameLink(d, dev)
    ensures RefreshFacts(d, dev, 2, net, qs, products)
  {
    var rs := RefreshReplies(d, net, qs);
    SameExchange(d, dev, net, qs[2]);
    var r := Exchange(dev, net, qs[2]);
    assert r == rs[2];
    if r.Ok? {
        RefreshFromLocation(d, RefreshStep(Connect(dev), 2, r.value, products), net, qs, products);
    }
  }

  /** RefreshFacts hold from the GetGroup step on. */
  lemma RefreshFromGroup(d: Device, dev: Device, net: Network, qs: seq<seq<byte>>, products: map<uint32, Product>)
    requires |qs| == 5 && RefreshFits(dev, 1, net, qs, products) && !dev.connected && SameLink(d, dev)
    ensures RefreshFacts(d, dev, 1, net, qs, products)
  {
    var rs := RefreshReplies(d, net, qs);
    SameExchange(d, dev, net, qs[1]);
    var r := Exchange(dev, net, qs[1]);
    assert r == rs[1];
    if r.Ok? {
        RefreshFromInfo(d, RefreshStep(Connect(dev), 1, r.value, products), net, qs, products);
    }
  }

  /** RefreshFacts hold from the Get step on. */
  lemma RefreshFromGet(d: Device, dev: Device, net: Network, qs: seq<seq<byte>>, products: map<uint32, Product>)
    requires |qs| == 5 && RefreshFits(dev, 0, net, qs, products) && !dev.connected && SameLink(d, dev)
    ensures RefreshFacts(d, dev, 0, net, qs, products)
  {
    var rs := RefreshReplies(d, net, qs);
    SameExchange(d, dev, net, qs[0]);
    var r := Exchange(dev, net, qs[0]);
    assert r == rs[0];
    if r.Ok? {
        RefreshFromGroup(d, RefreshStep(Connect(dev), 0, r.value, products), net, qs, products);
    }
  }

  /** A device is connected after Update exactly when all five exchanges succeed. */
  lemma UpdateConnectedIffAllSucceed(d: Device, net: Network, source: Bytes4, products: map<uint32, Product>)
    requires RefreshDecodable(d, net, source, products)
    ensures var o := UpdateOutcome(d, net, source, products);
            var rs := RefreshReplies(d, net, RefreshRequests(source));
            && (o.device.connected <==> forall i | 0 <= i < 5 :: rs[i].Ok?)
            && (o.err.None? <==> o.device.connected)
  {
    RefreshFromGet(d, d.(connected := false), net, RefreshRequests(source), products);
    var rs := RefreshReplies(d, net, RefreshRequests(source));
    if forall i | 0 <= i < 5 :: rs[i].Ok? {
      assert FirstFailure(rs, 0) == 5;
    }
  }

  /** Every reply Update decodes, up to its first failure, is long enough for its decoder. */
  lemma UpdateRepliesFit(d: Device, net: Network, source: Bytes4, products: map<uint32, Product>)
    requires RefreshDecodable(d, net, source, products)
    ensures var rs := RefreshReplies(d, net, RefreshRequests(source));
            var k := FirstFailure(rs, 0);
            && (k > 0 ==> |rs[0].value| >= StateSize) && (k > 1 ==> |rs[1].value| >= GroupSize)
            && (k > 2 ==> |rs[2].value| >= InfoSize) && (k > 3 ==> |rs[3].value| >= GroupSize)
            && (k > 4 ==> |rs[4].value| >= VersionSize)
  {
    RefreshFromGet(d, d.(connected := false), net, RefreshRequests(source), products);
  }

  /**
   * A failed step of Update returns that step's error and leaves the device
   * disconnected; the colour, label and power are those of the first reply
   * once it succeeded, and the configuration never changes.
   */
  lemma UpdatePartialFailure(d: Device, net: Network, source: Bytes4, products: map<uint32, Product>)
    requires RefreshDecodable(d, net, source, products)
    ensures var o := UpdateOutcome(d, net, source, products);
            var rs := RefreshReplies(d, net, RefreshRequests(source));
            var k := FirstFailure(rs, 0);
            && (k < 5 ==> o.err == Some(rs[k].error) && !o.device.connected)
            && (k == 0 ==> o.device.hsbk == d.hsbk && o.device.name == d.name && o.device.power == d.power)
            && (k > 0 ==> |rs[0].value| >= StateSize && var s := DecodeToState(rs[0].value).value;
                          o.device.hsbk == s.hsbk && o.device.name == s.name && o.device.power == s.power)
            && o.device.uuid == d.uuid && o.device.address == d.address && o.device.port == d.port
            && o.device.protocol == d.protocol && o.device.client == Connect(d).client
  {
    RefreshFromGet(d, d.(connected := false), net, RefreshRequests(source), products);
  }

  /** The group, info, location and product are written by their own step only when it and every earlier step succeeded. */
  lemma UpdateStopsBeforeLaterSteps(d: Device, net: Network, source: Bytes4, products: map<uint32, Product>)
    requires RefreshDecodable(d, net, source, products)
    ensures var o := UpdateOutcome(d, net, source, products);
            var rs := RefreshReplies(d, net, RefreshRequests(source));
            var k := FirstFailure(rs, 0);
            && o.device.group == (if k > 1 && |rs[1].value| >= GroupSize then Some(DecodeToGroup(rs[1].value)) else d.group)
            && o.device.info == (if k > 2 && |rs[2].value| >= InfoSize then Some(DecodeToInfo(rs[2].value)) else d.info)
            && o.device.location == (if k > 3 && |rs[3].value| >= GroupSize then Some(DecodeToLocation(rs[3].value)) else d.location)
            && o.device.product == (if k > 4 && |rs[4].value| >= VersionSize then DecodeToProduct(rs[4].value, products) else d.product)
  {
    UpdateRepliesFit(d, net, source, products);
    RefreshFromGet(d, d.(connected := false), net, RefreshRequests(source), products);
  }

  /** SetLabel: the label is stored only once the SetLabel request has gone out. */
  function SetLabelOutcome(d: Device, net: Network, source: Bytes4, name: Str): Outcome
  {
    var r := Exchange(d, net, Request(source, SetLabel, LabelPayload(name)));
    if r.Err? then Outcome(Connect(d), Some(r.error))
    else Outcome(Connect(d).(name := name), None)
  }

  /** SetPower: the power is stored only once the SetPowerDevice request has gone out. */
  function SetPowerOutcome(d: Device, net: Network, source: Bytes4, power: Str): Outcome
  {
    var r := Exchange(d, net, Request(source, SetPowerDevice, PowerPayload(power)));
    if r.Err? then Outcome(Connect(d), Some(r.error))
    else Outcome(Connect(d).(power := power), None)
  }

  /**
   * SetLabel succeeds exactly when its Send does; a failed one stores
   * nothing, and no field but the label changes. A successful one stores
   * the whole label: when the label fits the 32-byte payload and has no NUL
   * at either end, that is what the device reads back from the payload;
   * a longer label is stored whole although only its first 32 bytes are
   * sent, so the stored label is not what the device reads back.
   */
  lemma SetLabelAgreesWithPayload(d: Device, net: Network, source: Bytes4, name: Str)
    ensures var o := SetLabelOutcome(d, net, source, name);
            var r := Exchange(d, net, Request(source, SetLabel, LabelPayload(name)));
            && (o.err.None? <==> r.Ok?)
            && (r.Err? ==> o == Outcome(Connect(d), Some(r.error)))
            && (r.Ok? ==> o.device.name == name)
            && (r.Ok? && |name| <= LabelSize && Tools.ZeroFreeEnds(name) ==>
                  o.device.name == Tools.DecodeToString(LabelPayload(name)))
            && (|name| > LabelSize ==> LabelPayload(name) == name[..LabelSize])
            && (r.Ok? && |name| > LabelSize ==> o.device.name != Tools.DecodeToString(LabelPayload(name)))
            && o.device.(name := d.name) == Connect(d)
  {
    if |name| <= LabelSize && Tools.ZeroFreeEnds(name) {
      LabelPayloadDecodes(name);
    }
  }

  /**
   * A successful SetPower stores the given string, while the device is sent
   * level 65535 for "on" and level 0 for anything else; a failed one stores
   * nothing. No other field changes.
   */
  lemma SetPowerAgreesWithPayload(d: Device, net: Network, source: Bytes4, power: Str)
    ensures var o := SetPowerOutcome(d, net, source, power);
            var r := Exchange(d, net, Request(source, SetPowerDevice, PowerPayload(power)));
            && (o.err.None? <==> r.Ok?)
            && (r.Err? ==> o == Outcome(Connect(d), Some(r.error)))
            && (r.Ok? ==> o.device.power == power
                          && (BigEndianUint16(PowerPayload(power)) == 65535 <==> o.device.power == PowerOn))
            && o.device.(power := d.power) == Connect(d)
  {
  }

  /** The reply to a SetColor request is long enough to decode as a State. */
  predicate ColorDecodable(d: Device, net: Network, source: Bytes4, c: HSBK, duration: uint32)
  {
    Fits(Exchange(d, net, Request(source, SetColor, ColorPayload(c, duration))), StateSize)
  }

  /** SetHSBK: the device takes the state it replies with, not the colour that was asked for. */
  function SetHSBKOutcome(d: Device, net: Network, source: Bytes4, c: HSBK, duration: uint32): Outcome
    requires ColorDecodable(d, net, source, c, duration)
  {
    var r := Exchange(d, net, Request(source, SetColor, ColorPayload(c, duration)));
    if r.Err? then Outcome(Connect(d), Some(r.error))
    else Outcome(ApplyState(Connect(d), DecodeToState(r.value).value), None)
  }

  /**
   * After a SetHSBK that gets a reply, the device holds the colour it asked
   * for exactly when the reply reports that colour, and its power is one of
   * the two named levels.
   */
  lemma SetHSBKTakesAskedColourIffReported(d: Device, net: Network, source: Bytes4, c: HSBK, duration: uint32)
    requires ColorDecodable(d, net, source, c, duration)
    ensures var o := SetHSBKOutcome(d, net, source, c, duration);
            var r := Exchange(d, net, Request(source, SetColor, ColorPayload(c, duration)));
            && (r.Err? ==> o == Outcome(Connect(d), Some(r.error)))
            && (r.Ok? ==>
                  && o.err.None?
                  && (o.device.hsbk == Some(c) <==> r.value[|r.value| - 52..|r.value| - 44] == EncodeHSBK(c))
                  && (o.device.power == PowerOn || o.device.power == PowerOff))
  {
    var r := Exchange(d, net, Request(source, SetColor, ColorPayload(c, duration)));
    if r.Ok? {
      var st := DecodeToState(r.value).value;
      var got := st.hsbk.value;
      DecodeEncodeHSBK(c);
      DecodeEncodeHSBK(got);
    }
  }

  /** The label and power steps of SetState; each runs only for a non-empty field. */
  function SetStatePrefix(d: Device, net: Network, source: Bytes4, st: State): Outcome
  {
    var o1 := if |st.name| > 0 then SetLabelOutcome(d, net, source, st.name) else Outcome(d, None);
    if o1.err.None? && |st.power| > 0 then SetPowerOutcome(o1.device, net, source, st.power) else o1
  }

  /** The colour step of SetState, when it is reached, gets a decodable reply. */
  predicate SetStateDecodable(d: Device, net: Network, source: Bytes4, st: State, duration: uint32)
  {
    var o := SetStatePrefix(d, net, source, st);
    o.err.None? && st.hsbk.Some? ==> ColorDecodable(o.device, net, source, st.hsbk.value, duration)
  }

  /** SetState: SetLabel, then SetPower, then SetHSBK, each skipped for an empty field, stopping at the first error. */
  function SetStateOutcome(d: Device, net: Network, source: Bytes4, st: State, duration: uint32): Outcome
    requires SetStateDecodable(d, net, source, st, duration)
  {
    var o := SetStatePrefix(d, net, source, st);
    if o.err.None? && st.hsbk.Some? then SetHSBKOutcome(o.device, net, source, st.hsbk.value, duration)
    else o
  }

  /** A SetState with nothing in it sends nothing and changes nothing. */
  lemma SetStateEmptyIsNoOp(d: Device, net: Network, source: Bytes4, duration: uint32)
    ensures SetStateDecodable(d, net, source, State(None, [], []), duration)
    ensures SetStateOutcome(d, net, source, State(None, [], []), duration) == Outcome(d, None)
  {
  }

  /**
   * A SetState that fails at its label step leaves the device as it was,
   * but for the client Send creates; one that fails later keeps the fields
   * earlier steps stored.
   */
  lemma SetStateStopsAtFirstError(d: Device, net: Network, source: Bytes4, st: State, duration: uint32)
    requires SetStateDecodable(d, net, source, st, duration)
    ensures var o := SetStateOutcome(d, net, source, st, duration);
            var rl := Exchange(d, net, Request(source, SetLabel, LabelPayload(st.name)));
            var rp := Exchange(d, net, Request(source, SetPowerDevice, PowerPayload(st.power)));
            && (|st.name| > 0 && rl.Err? ==> o == Outcome(Connect(d), Some(rl.error)))
            && ((|st.name| == 0 || rl.Ok?) && |st.power| > 0 && rp.Err? ==>
                  o == Outcome(Connect(d).(name := if |st.name| > 0 then st.name else d.name), Some(rp.error)))
  {
    SameExchange(d, Connect(d), net, Request(source, SetPowerDevice, PowerPayload(st.power)));
  }

  /**
   * Once the label and power steps succeed, their fields stay as stored:
   * a failed colour step returns its error and changes nothing else, and a
   * successful one overwrites them only with what the reply reports.
   */
  lemma SetStateKeepsEarlierSteps(d: Device, net: Network, source: Bytes4, st: State, duration: uint32)
    requires SetStateDecodable(d, net, source, st, duration)
    ensures var o := SetStateOutcome(d, net, source, st, duration);
            var p := SetStatePrefix(d, net, source, st);
            && (p.err.None? ==>
                  && p.device.name == (if |st.name| > 0 then st.name else d.name)
                  && p.device.power == (if |st.power| > 0 then st.power else d.power))
            && (p.err.None? && st.hsbk.None? ==> o == p)
            && (p.err.None? && st.hsbk.Some? ==>
                  var rc := Exchange(p.device, net, Request(source, SetColor, ColorPayload(st.hsbk.value, duration)));
                  rc.Err? ==> o == Outcome(Connect(p.device), Some(rc.error)))
  {
  }

  /** The colour Toggle sends: off for a lit light, otherwise the on preset with the given brightness. */
  function ToggleColor(d: Device, brightness: uint16): (c: HSBK)
    requires d.power == PowerOn ==> d.hsbk.Some?
    ensures c == Off <==> d.power == PowerOn && d.hsbk.value.brightness > 0
    ensures c != Off ==> c == On.(brightness := brightness)
  {
    if d.power == PowerOn && d.hsbk.value.brightness > 0 then Off
    else HSBK(On.hue, On.saturation, brightness, On.kelvin)
  }

  /** Toggle: a SetColor with ToggleColor, then the device takes the state it replies with. */
  function ToggleOutcome(d: Device, net: Network, source: Bytes4, brightness: uint16, duration: uint32): Outcome
    requires d.power == PowerOn ==> d.hsbk.Some?
    requires ColorDecodable(d, net, source, ToggleColor(d, brightness), duration)
  {
    SetHSBKOutcome(d, net, source, ToggleColor(d, brightness), duration)
  }

  /**
   * A Toggle that gets a reply takes the colour, power and label of that reply;
   * no other field changes except the client.
   */
  lemma ToggleTakesReplyState(d: Device, net: Network, source: Bytes4, brightness: uint16, duration: uint32)
    requires d.power == PowerOn ==> d.hsbk.Some?
    requires ColorDecodable(d, net, source, ToggleColor(d, brightness), duration)
    ensures var o := ToggleOutcome(d, net, source, brightness, duration);
            var r := Exchange(d, net, Request(source, SetColor, ColorPayload(ToggleColor(d, brightness), duration)));
            && (r.Err? ==> o == Outcome(Connect(d), Some(r.error)))
            && (r.Ok? ==>
                  && o.err.None? && o.device.hsbk.Some?
                  && EncodeHSBK(o.device.hsbk.value) == r.value[|r.value| - 52..|r.value| - 44]
                  && (o.device.power == PowerOn <==> r.value[|r.value| - 42] == 0xFF && r.value[|r.value| - 41] == 0xFF)
                  && o.device.name == Tools.DecodeToString(r.value[|r.value| - 40..|r.value| - 8])
                  && o.device.(hsbk := d.hsbk, name := d.name, power := d.power) == Connect(d))
  {
  }

  /** A LIFX device whose fields the operations overwrite. */
  class Lifx {
    var uuid: Str
    var name: Str
    var connected: bool
    var power: Str
    var hsbk: Option<HSBK>
    var group: Option<Group>
    var product: Option<Product>
    var info: Option<Info>
    var location: Option<Location>
    var address: Str
    var port: Str
    var protocol: Str
    var client: Option<ClientKind>

    /** The device's fields as a value. */
    function Snapshot(): Device
      reads this
    {
      Device(uuid, name, connected, power, hsbk, group, product, info, location, address, port, protocol, client)
    }

    /** A device as the configuration file describes it: nothing known about it yet, no client. */
    constructor (uuid: Str, name: Str, address: Str, port: Str, protocol: Str)
      ensures Snapshot() == Device(uuid, name, false, [], None, None, None, None, None, address, port, protocol, None)
    {
      this.uuid := uuid;
      this.name := name;
      connected := false;
      power := [];
      hsbk := None;
      group := None;
      product := None;
      info := None;
      location := None;
      this.address := address;
      this.port := port;
      this.protocol := protocol;
      client := None;
    }

    /** Send: resolve the client, check the address and port, then hand the encoded message to the network. */
    method Send(message: Message, net: Network) returns (r: Result<seq<byte>, Error>)
      modifies this, message`size
      ensures Snapshot() == Connect(old(Snapshot()))
      ensures r == Exchange(old(Snapshot()), net, EncodeMessage(message.header.Data(), message.payload))
      ensures message.size == if client.Some? && |address| > 0 && |port| > 0 then SizePrefix(|message.payload|) else old(message.size)
    {
      if client.None? {
        if protocol == UDP {
          client := Some(UdpClient);
        } else {
          return Err(NotFound);
        }
      }
      if |address| == 0 {
        return Err(NotValid);
      }
      if |port| == 0 {
        return Err(NotValid);
      }
      // The encoding is never empty, so the "not initialized" check never fires.
      var encoded := message.EncodeToBytes();
      assert |encoded| > 0;
      var bytes := message.EncodeToBytes();
      r := net(address, port, bytes);
    }

    /** Sends a factory message and returns the reply. */
    method Ask(source: Bytes4, t: MessageType, net: Network) returns (r: Result<seq<byte>, Error>)
      modifies this
      ensures Snapshot() == Connect(old(Snapshot()))
      ensures r == Exchange(old(Snapshot()), net, Request(source, t, []))
    {
      var m := GetMessageWithoutPayload(source, t);
      r := Send(m, net);
    }

    /** Sends a SetColor message and returns the reply. */
    method AskColor(source: Bytes4, c: HSBK, duration: uint32, net: Network) returns (r: Result<seq<byte>, Error>)
      modifies this
      ensures Snapshot() == Connect(old(Snapshot()))
      ensures r == Exchange(old(Snapshot()), net, Request(source, SetColor, ColorPayload(c, duration)))
    {
      var m := SetColorMessage(source, c, duration);
      r := Send(m, net);
    }

    /** Update: refresh the colour, label, power, group, info, location and product, stopping at the first error. */
    method Update(net: Network, source: Bytes4, products: map<uint32, Product>) returns (err: Option<Error>)
      requires RefreshDecodable(Snapshot(), net, source, products)
      modifies this
      ensures Outcome(Snapshot(), err) == UpdateOutcome(old(Snapshot()), net, source, products)
    {
      ghost var qs := RefreshRequests(source);
      ghost var goal := UpdateOutcome(Snapshot(), net, source, products);
      connected := false;
      assert RefreshFits(Snapshot(), 0, net, qs, products) && RefreshFrom(Snapshot(), 0, net, qs, products) == goal;
      var r0 := RefreshState(net, source, products);
      if r0.Err? {
        return Some(r0.error);
      }
      assert RefreshFits(Snapshot(), 1, net, qs, products) && RefreshFrom(Snapshot(), 1, net, qs, products) == goal;
      var r1 := RefreshGroup(net, source, products);
      if r1.Err? {
        return Some(r1.error);
      }
      assert RefreshFits(Snapshot(), 2, net, qs, products) && RefreshFrom(Snapshot(), 2, net, qs, products) == goal;
      var r2 := RefreshInfo(net, source, products);
      if r2.Err? {
        return Some(r2.error);
      }
      assert RefreshFits(Snapshot(), 3, net, qs, products) && RefreshFrom(Snapshot(), 3, net, qs, products) == goal;
      var r3 := RefreshLocation(net, source, products);
      if r3.Err? {
        return Some(r3.error);
      }
      assert RefreshFits(Snapshot(), 4, net, qs, products) && RefreshFrom(Snapshot(), 4, net, qs, products) == goal;
      var r4 := RefreshProduct(net, source, products);
      if r4.Err? {
        return Some(r4.error);
      }
      assert RefreshFits(Snapshot(), 5, net, qs, products) && RefreshFrom(Snapshot(), 5, net, qs, products) == goal;
      connected := true;
      err := None;
    }

    /** Step 0 of Update: ask for the colour, label and power and store what the reply decodes to. */
    method RefreshState(net: Network, source: Bytes4, products: map<uint32, Product>) returns (r: Result<seq<byte>, Error>)
      requires Fits(Exchange(Snapshot(), net, Request(source, Get, [])), StateSize)
      modifies this
      ensures r == Exchange(old(Snapshot()), net, Request(source, Get, []))
      ensures Snapshot() == if r.Err? then Connect(old(Snapshot())) else RefreshStep(Connect(old(Snapshot())), 0, r.value, products)
    {
      r := Ask(source, Get, net);
      if r.Err? {
        return;
      }
      var state := DecodeToState(r.value).value;
      hsbk, name, power := state.hsbk, state.name, state.power;
    }

    /** Step 1 of Update: ask for the group and store what the reply decodes to. */
    method RefreshGroup(net: Network, source: Bytes4, products: map<uint32, Product>) returns (r: Result<seq<byte>, Error>)
      requires Fits(Exchange(Snapshot(), net, Request(source, GetGroup, [])), GroupSize)
      modifies this
      ensures r == Exchange(old(Snapshot()), net, Request(source, GetGroup, []))
      ensures Snapshot() == if r.Err? then Connect(old(Snapshot())) else RefreshStep(Connect(old(Snapshot())), 1, r.value, products)
    {
      r := Ask(source, GetGroup, net);
      if r.Err? {
        return;
      }
      group := Some(DecodeToGroup(r.value));
    }

    /** Step 2 of Update: ask for the info and store what the reply decodes to. */
    method RefreshInfo(net: Network, source: Bytes4, products: map<uint32, Product>) returns (r: Result<seq<byte>, Error>)
      requires Fits(Exchange(Snapshot(), net, Request(source, GetInfo, [])), InfoSize)
      modifies this
      ensures r == Exchange(old(Snapshot()), net, Request(source, GetInfo, []))
      ensures Snapshot() == if r.Err? then Connect(old(Snapshot())) else RefreshStep(Connect(old(Snapshot())), 2, r.value, products)
    {
      r := Ask(source, GetInfo, net);
      if r.Err? {
        return;
      }
      info := Some(DecodeToInfo(r.value));
    }

    /** Step 3 of Update: ask for the location and store what the reply decodes to. */
    method RefreshLocation(net: Network, source: Bytes4, products: map<uint32, Product>) returns (r: Result<seq<byte>, Error>)
      requires Fits(Exchange(Snapshot(), net, Request(source, GetLocation, [])), GroupSize)
      modifies this
      ensures r == Exchange(old(Snapshot()), net, Request(source, GetLocation, []))
      ensures Snapshot() == if r.Err? then Connect(old(Snapshot())) else RefreshStep(Connect(old(Snapshot())), 3, r.value, products)
    {
      r := Ask(source, GetLocation, net);
      if r.Err? {
        return;
      }
      location := Some(DecodeToLocation(r.value));
    }

    /** Step 4 of Update: ask for the product and store what the reply decodes to. */
    method RefreshProduct(net: Network, source: Bytes4, products: map<uint32, Product>) returns (r: Result<seq<byte>, Error>)
      requires Fits(Exchange(Snapshot(), net, Request(source, GetVersion, [])), VersionSize)
      modifies this
      ensures r == Exchange(old(Snapshot()), net, Request(source, GetVersion, []))
      ensures Snapshot() == if r.Err? then Connect(old(Snapshot())) else RefreshStep(Connect(old(Snapshot())), 4, r.value, products)
    {
      r := Ask(source, GetVersion, net);
      if r.Err? {
        return;
      }
      product := DecodeToProduct(r.value, products);
    }

    /** SetLabel: send the label, then store it. */
    method SetLabel(net: Network, source: Bytes4, name: Str) returns (err: Option<Error>)
      modifies this
      ensures Outcome(Snapshot(), err) == SetLabelOutcome(old(Snapshot()), net, source, name)
    {
      var m := SetLabelMessage(source, name);
      var r := Send(m, net);
      if r.Err? {
        return Some(r.error);
      }
      this.name := name;
      err := None;
    }

    /** SetPower: send the power level, then store it. */
    method SetPower(net: Network, source: Bytes4, power: Str) returns (err: Option<Error>)
      modifies this
      ensures Outcome(Snapshot(), err) == SetPowerOutcome(old(Snapshot()), net, source, power)
    {
      var m := SetPowerDeviceMessage(source, power);
      var r := Send(m, net);
      if r.Err? {
        return Some(r.error);
      }
      this.power := power;
      err := None;
    }

    /** SetHSBK: send the colour, then take the state the device replies with. */
    method SetHSBK(net: Network, source: Bytes4, c: HSBK, duration: uint32) returns (err: Option<Error>)
      requires ColorDecodable(Snapshot(), net, source, c, duration)
      modifies this
      ensures Outcome(Snapshot(), err) == SetHSBKOutcome(old(Snapshot()), net, source, c, duration)
    {
      var bytes := AskColor(source, c, duration, net);
      if bytes.Err? {
        return Some(bytes.error);
      }
      var state := DecodeToState(bytes.value).value;
      hsbk, name, power := state.hsbk, state.name, state.power;
      err := None;
    }

    /** SetState: label, power and colour in that order, each only when given. */
    method SetState(net: Network, source: Bytes4, st: State, duration: uint32) returns (err: Option<Error>)
      requires SetStateDecodable(Snapshot(), net, source, st, duration)
      modifies this
      ensures Outcome(Snapshot(), err) == SetStateOutcome(old(Snapshot()), net, source, st, duration)
    {
      if |st.name| > 0 {
        err := SetLabel(net, source, st.name);
        if err.Some? {
          return;
        }
      }
      if |st.power| > 0 {
        err := SetPower(net, source, st.power);
        if err.Some? {
          return;
        }
      }
      if st.hsbk.Some? {
        err := SetHSBK(net, source, st.hsbk.value, duration);
        if err.Some? {
          return;
        }
      }
      err := None;
    }

    /** Toggle: turn a lit light off, anything else on at the given brightness. */
    method Toggle(net: Network, source: Bytes4, brightness: uint16, duration: uint32) returns (err: Option<Error>)
      requires power == PowerOn ==> hsbk.Some?
      requires ColorDecodable(Snapshot(), net, source, ToggleColor(Snapshot(), brightness), duration)
      modifies this
      ensures Outcome(Snapshot(), err) == ToggleOutcome(old(Snapshot()), net, source, brightness, duration)
    {
      ghost var d := Snapshot();
      var c: HSBK;
      if power == PowerOn && hsbk.value.brightness > 0 {
        c := Off;
      } else {
        c := HSBK(On.hue, On.saturation, brightness, On.kelvin);
      }
      assert c == ToggleColor(d, brightness);
      var bytes := AskColor(source, c, duration, net);
      if bytes.Err? {
        return Some(bytes.error);
      }
      var state := DecodeToState(bytes.value).value;
      hsbk, name, power := state.hsbk, state.name, state.power;
      err := None;
    }
  }
}
