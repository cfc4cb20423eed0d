/** The EasyStart Flex coordinator, one call at a time: the `connected`
    flag, whether a transport client exists, and the telemetry map. Each
    transport step (opening the link, subscribing to notifications, the
    enable write, closing, reading a counter) is an outcome passed in. */
module EasyStartCoordinator {
  import opened BigEndian
  import opened Notification

  /** The counter read from its own characteristic by `update_data`. */
  const TotalStartsKey := "total_starts"

  datatype Coordinator = Coordinator(connected: bool, hasClient: bool, data: Telemetry)

  /** The flag is only ever set after a client was made. */
  predicate Wf(c: Coordinator) {
    c.connected ==> c.hasClient
  }

  /** A fresh coordinator: no client, not connected, no telemetry. */
  function Init(): (c: Coordinator)
    ensures !c.connected && !c.hasClient && c.data == map[]
  {
    Coordinator(false, false, map[])
  }

  /** Whether each transport step of one `connect` call succeeds: opening
      the link, subscribing to notifications, writing the enable byte. A
      step after a failed one is never reached, so its outcome is unused. */
  datatype ConnectOutcome = ConnectOutcome(linkOk: bool, notifyOk: bool, enableOk: bool)

  /** The outcome of reading the total-starts characteristic. */
  datatype ReadOutcome = ReadOk(bytes: seq<Byte>) | ReadFailed

  /** What a call that may raise leaves behind: the state, and whether an
      exception propagated to the caller. */
  datatype Step = Step(state: Coordinator, raised: bool)

  /** `connect`: a no-op when already connected; otherwise a new client is
      made and the flag is set on a successful link, then cleared again by
      the exception handler if any later step fails. It never raises. */
  function Connect(c: Coordinator, o: ConnectOutcome): (r: Coordinator)
    ensures c.connected ==> r == c
    ensures Wf(c) ==> r.hasClient
    ensures !c.connected ==> (r.connected <==> o.linkOk && o.notifyOk && o.enableOk)
    ensures r.data == c.data
  {
    if c.connected then c
    else
      var withClient := c.(hasClient := true);
      if !o.linkOk then withClient.(connected := false)
      else
        var linked := withClient.(connected := true);
        if !o.notifyOk || !o.enableOk then linked.(connected := false)
        else linked
  }

  /** `disconnect`: acts only with a client that is connected. Closing the
      client is not guarded by a handler, so a failed close raises and leaves
      the flag set. */
  function Disconnect(c: Coordinator, closeOk: bool): (r: Step)
    ensures r.raised <==> c.hasClient && c.connected && !closeOk
    ensures r.raised ==> r.state == c
    ensures Wf(c) && !r.raised ==> !r.state.connected
    ensures !(c.hasClient && c.connected) ==> r == Step(c, false)
    ensures r.state.hasClient == c.hasClient && r.state.data == c.data
  {
    if c.hasClient && c.connected then
      if closeOk then Step(c.(connected := false), false) else Step(c, true)
    else Step(c, false)
  }

  /** The notification callback: decodes the frame into the telemetry map,
      whatever the connection flag says. */
  function HandleNotification(c: Coordinator, frame: seq<Byte>): (r: Coordinator)
    ensures r.connected == c.connected && r.hasClient == c.hasClient
    ensures r.data == Decode(frame, c.data)
  {
    c.(data := Decode(frame, c.data))
  }

  /** `update_data`: calls `connect`, then reads the total-starts counter
      into the map as a big-endian integer of the width read. A failed read
      is caught and leaves the map as it was. */
  function UpdateData(c: Coordinator, o: ConnectOutcome, read: ReadOutcome): (r: Coordinator)
    ensures r.connected == Connect(c, o).connected
    ensures Wf(c) ==> r.hasClient
    ensures read.ReadFailed? ==> r.data == c.data
    ensures read.ReadOk? ==> r.data.Keys == c.data.Keys + {TotalStartsKey}
    ensures read.ReadOk? ==> r.data[TotalStartsKey] == Int(FromBytes(read.bytes))
    ensures read.ReadOk? ==> 0 <= r.data[TotalStartsKey].n < Pow256(|read.bytes|)
    ensures forall k :: k in c.data && k != TotalStartsKey ==> k in r.data && r.data[k] == c.data[k]
  {
    var afterConnect := Connect(c, o);
    match read
    case ReadOk(bytes) =>
      afterConnect.(data := afterConnect.data[TotalStartsKey := Int(FromBytes(bytes))])
    case ReadFailed => afterConnect
  }

  /** Once connected, `connect` changes nothing, whatever the transport would do. */
  lemma ConnectIdempotent(c: Coordinator, o: ConnectOutcome, o': ConnectOutcome)
    requires Connect(c, o).connected
    ensures Connect(Connect(c, o), o') == Connect(c, o)
  {
  }

  /** A failure at any step leaves the flag clear, including a failure after
      the link was up and the flag had been set. */
  lemma ConnectFailureLeavesDisconnected(c: Coordinator, o: ConnectOutcome)
    requires !c.connected
    requires !o.linkOk || !o.notifyOk || !o.enableOk
    ensures !Connect(c, o).connected
    ensures Connect(c, o) == c.(hasClient := true)
  {
  }

  /** A second `disconnect` after one that returned normally changes
      nothing and cannot raise, whatever its close would do. */
  lemma DisconnectIdempotent(c: Coordinator, closeOk: bool, closeOk': bool)
    requires !Disconnect(c, closeOk).raised
    ensures Disconnect(Disconnect(c, closeOk).state, closeOk') == Disconnect(c, closeOk)
  {
  }

  /** A counter encoded big-endian in any width it fits reads back as
      itself through `update_data`. */
  lemma UpdateDataRoundTrip(c: Coordinator, o: ConnectOutcome, v: nat, w: nat)
    requires v < Pow256(w)
    ensures UpdateData(c, o, ReadOk(ToBytes(v, w))).data[TotalStartsKey] == Int(v)
  {
    FromBytesToBytes(v, w);
  }
}
