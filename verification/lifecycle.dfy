/** Any sequence of coordinator calls from construction, one at a time,
    and what every reachable state satisfies. */
module Lifecycle {
  import opened BigEndian
  import opened Notification
  import opened EasyStartCoordinator

  /** One call into the coordinator, with the transport outcomes it meets:
      the switch turning on or off, a notification arriving, a poll. */
  datatype Event =
    | ConnectCall(outcome: ConnectOutcome)
    | DisconnectCall(closeOk: bool)
    | Notify(frame: seq<Byte>)
    | Poll(pollOutcome: ConnectOutcome, read: ReadOutcome)

  /** The state after one call. A `disconnect` that raises hands the
      exception to its caller and leaves the coordinator as it was. */
  function Apply(c: Coordinator, e: Event): (r: Coordinator)
    ensures e.Notify? ==> r.connected == c.connected
    ensures !e.Notify? && !e.Poll? ==> r.data == c.data
    ensures c.data.Keys <= r.data.Keys
  {
    match e
    case ConnectCall(o) => Connect(c, o)
    case DisconnectCall(ok) => Disconnect(c, ok).state
    case Notify(frame) => HandleNotification(c, frame)
    case Poll(o, read) => UpdateData(c, o, read)
  }

  /** The state after the calls `es`, in order, from `c`. */
  function Run(c: Coordinator, es: seq<Event>): Coordinator
    decreases |es|
  {
    if |es| == 0 then c else Run(Apply(c, es[0]), es[1..])
  }

  /** Every key the coordinator ever writes. */
  const KnownKeys: set<string> := FrameKeys + {TotalStartsKey}

  /** Each telemetry value has the kind and range its writer gives it. */
  predicate WellTyped(d: Telemetry) {
    && (StatusKey in d ==> d[StatusKey].Str? && d[StatusKey].text in StatusNames)
    && (FaultKey in d ==> d[FaultKey].Int? && 0 <= d[FaultKey].n < 256)
    && (RuntimeKey in d ==> d[RuntimeKey].Int? && 0 <= d[RuntimeKey].n <= 0xFFFF)
    && (CurrentKey in d ==> d[CurrentKey].Tenths? && 0 <= d[CurrentKey].tenths < 256)
    && (FrequencyKey in d ==> d[FrequencyKey].Int? && 0 <= d[FrequencyKey].n < 256)
    && (TotalStartsKey in d ==> d[TotalStartsKey].Int? && d[TotalStartsKey].n >= 0)
  }

  /** What holds of every reachable coordinator. */
  predicate Inv(c: Coordinator) {
    Wf(c) && c.data.Keys <= KnownKeys && WellTyped(c.data)
  }

  /** Every call keeps the invariant. */
  lemma ApplyPreservesInv(c: Coordinator, e: Event)
    requires Inv(c)
    ensures Inv(Apply(c, e))
  {
  }

  /** The invariant holds after any run from an invariant state. */
  lemma {:induction false} RunPreservesInv(c: Coordinator, es: seq<Event>)
    requires Inv(c)
    ensures Inv(Run(c, es))
    decreases |es|
  {
    if |es| > 0 {
      ApplyPreservesInv(c, es[0]);
      RunPreservesInv(Apply(c, es[0]), es[1..]);
    }
  }

  /** From construction, the flag is only set with a client, every value is
      well typed, and keys outside the written ones never appear: the
      sensors for `diag`, `last_start_peak`, `scpt_delay` and `total_faults`
      always show their defaults. */
  lemma ReachableInv(es: seq<Event>)
    ensures Inv(Run(Init(), es))
    ensures "diag" !in Run(Init(), es).data
    ensures "last_start_peak" !in Run(Init(), es).data
    ensures "scpt_delay" !in Run(Init(), es).data
    ensures "total_faults" !in Run(Init(), es).data
  {
    RunPreservesInv(Init(), es);
  }

  /** No call ever removes a telemetry value: readings persist across
      disconnects and failed connects as last known values. */
  lemma {:induction false} RunKeepsKeys(c: Coordinator, es: seq<Event>)
    ensures c.data.Keys <= Run(c, es).data.Keys
    decreases |es|
  {
    if |es| > 0 {
      RunKeepsKeys(Apply(c, es[0]), es[1..]);
    }
  }

  /** Only `disconnect` clears the flag: nothing in the coordinator hears of
      a link that drops on its own, so after such a drop `connect` stays a
      no-op and the flag stays set. */
  lemma OnlyDisconnectClears(c: Coordinator, e: Event)
    requires c.connected && !e.DisconnectCall?
    ensures Apply(c, e).connected
  {
  }

  /** After a turn-on with every step succeeding and a turn-off whose close
      succeeds, the coordinator is disconnected and still holds the same
      telemetry, and a further turn-off is a no-op. */
  lemma ConnectThenDisconnect(c: Coordinator, ok: ConnectOutcome, closeOk: bool)
    requires !c.connected
    requires ok.linkOk && ok.notifyOk && ok.enableOk
    ensures Run(c, [ConnectCall(ok)]).connected
    ensures !Run(c, [ConnectCall(ok), DisconnectCall(true)]).connected
    ensures Run(c, [ConnectCall(ok), DisconnectCall(true)]).data == c.data
    ensures Run(c, [ConnectCall(ok), DisconnectCall(true), DisconnectCall(closeOk)])
         == Run(c, [ConnectCall(ok), DisconnectCall(true)])
  {
    var on := Connect(c, ok);
    var off := Disconnect(on, true).state;
    assert Run(c, [ConnectCall(ok)]) == Run(on, []);
    assert Run(c, [ConnectCall(ok), DisconnectCall(true)]) == Run(on, [DisconnectCall(true)]);
    assert Run(on, [DisconnectCall(true)]) == Run(off, []);
    assert Run(c, [ConnectCall(ok), DisconnectCall(true), DisconnectCall(closeOk)])
        == Run(on, [DisconnectCall(true), DisconnectCall(closeOk)]);
    assert Run(on, [DisconnectCall(true), DisconnectCall(closeOk)]) == Run(off, [DisconnectCall(closeOk)]);
    assert Run(off, [DisconnectCall(closeOk)]) == Run(Disconnect(off, closeOk).state, []);
  }
}
