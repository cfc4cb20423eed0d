/** The notification decoder of the EasyStart Flex coordinator: one raw
    notification frame updates the telemetry map in place, field by field,
    each field gated on the frame being long enough to hold it. */
module Notification {
  import opened BigEndian

  /** A telemetry value. `live_current` is held as a whole number of tenths
      of an ampere (the source stores `byte / 10.0`). */
  datatype Value = Str(text: string) | Int(n: int) | Tenths(tenths: int)

  /** The coordinator's `data` dictionary: metric name to last written value. */
  type Telemetry = map<string, Value>

  const StatusKey := "status"
  const FaultKey := "fault_code"
  const RuntimeKey := "runtime_hours"
  const CurrentKey := "live_current"
  const FrequencyKey := "line_frequency"

  /** The keys a notification frame may write. */
  const FrameKeys: set<string> := {StatusKey, FaultKey, RuntimeKey, CurrentKey, FrequencyKey}

  /** Every text the status field can take. */
  const StatusNames: set<string> := {"Idle", "Starting", "Running", "Unknown"}

  /** The status-code table of the device; codes not listed read as "Unknown". */
  const StatusTable: map<Byte, string> := map[16 := "Idle", 17 := "Starting", 18 := "Running"]

  /** Byte 0 of a frame as status text. Total: no code is an error. */
  function StatusText(code: Byte): (t: string)
    ensures t in StatusNames
    ensures t == "Idle" <==> code == 16
    ensures t == "Starting" <==> code == 17
    ensures t == "Running" <==> code == 18
    ensures t == "Unknown" <==> code !in {16, 17, 18}
  {
    if code in StatusTable then StatusTable[code] else "Unknown"
  }

  /** On 16-bit words holding two bytes, the source's `(high << 8) | low`
      is the integer `high * 256 + low`: the shifted byte and the low byte
      share no bit, and the sum never wraps. */
  lemma ShiftOrIsMultiplyAdd(high: bv16, low: bv16)
    requires high < 256 && low < 256
    ensures ((high << 8) | low) as int == high as int * 256 + low as int
  {
    assert (high << 8) | low == high * 256 + low;
    assert (high * 256 + low) as int == high as int * 256 + low as int;
  }

  /** The keys a frame of `len` bytes writes: a prefix of the field layout,
      independent of the byte values. */
  function WrittenKeys(len: nat): (ks: set<string>)
    ensures ks <= FrameKeys
  {
    (if len >= 1 then {StatusKey} else {})
    + (if len >= 2 then {FaultKey} else {})
    + (if len >= 4 then {RuntimeKey} else {})
    + (if len >= 6 then {CurrentKey, FrequencyKey} else {})
  }

  /** Applies one notification frame to the telemetry map. */
  function Decode(frame: seq<Byte>, m: Telemetry): (r: Telemetry)
    ensures |frame| == 0 ==> r == m
    ensures r.Keys == m.Keys + WrittenKeys(|frame|)
    ensures |frame| >= 1 ==> r[StatusKey] == Str(StatusText(frame[0]))
    ensures |frame| >= 2 ==> r[FaultKey] == Int(frame[1])
    ensures |frame| >= 4 ==> r[RuntimeKey] == Int(frame[2] as int * 256 + frame[3])
    ensures |frame| >= 4 ==> 0 <= r[RuntimeKey].n <= 0xFFFF
    ensures |frame| >= 6 ==> r[CurrentKey] == Tenths(frame[4]) && r[FrequencyKey] == Int(frame[5])
    ensures forall k :: k in m && k !in WrittenKeys(|frame|) ==> r[k] == m[k]
  {
    if |frame| < 1 then m
    else
      var withStatus := m[StatusKey := Str(StatusText(frame[0]))];
      var withFault :=
        if |frame| >= 2 then withStatus[FaultKey := Int(frame[1])] else withStatus;
      var withRuntime :=
        if |frame| >= 4 then withFault[RuntimeKey := Int(frame[2] as int * 256 + frame[3])] else withFault;
      if |frame| >= 6 then
        withRuntime[CurrentKey := Tenths(frame[4])][FrequencyKey := Int(frame[5])]
      else withRuntime
  }

  /** The written-key prefix only grows with the frame length, and the
      current and frequency fields are always written together. */
  lemma WrittenKeysPrefix(len: nat, len': nat)
    requires len <= len'
    ensures WrittenKeys(len) <= WrittenKeys(len')
    ensures CurrentKey in WrittenKeys(len) <==> FrequencyKey in WrittenKeys(len)
    ensures len < 6 ==> CurrentKey !in WrittenKeys(len) && FrequencyKey !in WrittenKeys(len)
  {
  }

  /** Only frame fields change: every other key, `total_starts` included,
      keeps its value, and no key is ever removed. */
  lemma DecodeFrame(frame: seq<Byte>, m: Telemetry, k: string)
    requires k !in FrameKeys
    ensures k in Decode(frame, m) <==> k in m
    ensures k in m ==> Decode(frame, m)[k] == m[k]
    ensures m.Keys <= Decode(frame, m).Keys
  {
  }

  /** The runtime field agrees with the general big-endian rule on bytes 2..3. */
  lemma RuntimeIsBigEndian(frame: seq<Byte>, m: Telemetry)
    requires |frame| >= 4
    ensures Decode(frame, m)[RuntimeKey] == Int(FromBytes(frame[2..4]))
  {
  }

  /** Delivering the same frame twice has the effect of delivering it once. */
  lemma DecodeIdempotent(frame: seq<Byte>, m: Telemetry)
    ensures Decode(frame, Decode(frame, m)) == Decode(frame, m)
  {
  }

  /** A later frame overwrites exactly the fields it is long enough to carry. */
  lemma DecodeLastWriteWins(f1: seq<Byte>, f2: seq<Byte>, m: Telemetry, k: string)
    requires k in Decode(f2, Decode(f1, m))
    ensures k in WrittenKeys(|f2|) ==> Decode(f2, Decode(f1, m))[k] == Decode(f2, m)[k]
    ensures k !in WrittenKeys(|f2|) ==> Decode(f2, Decode(f1, m))[k] == Decode(f1, m)[k]
  {
  }

  /** The readings a full six-byte frame carries. */
  datatype Reading = Reading(status: Byte, fault: Byte, runtime: int, currentTenths: Byte, frequency: Byte)

  /** A reading is encodable when its runtime fits in 16 bits. */
  predicate Encodable(rd: Reading) {
    0 <= rd.runtime < 65536
  }

  /** The six-byte frame carrying `rd`. */
  function EncodeFrame(rd: Reading): (frame: seq<Byte>)
    requires Encodable(rd)
    ensures |frame| == 6
  {
    [rd.status, rd.fault, rd.runtime / 256, rd.runtime % 256, rd.currentTenths, rd.frequency]
  }

  /** Decoding the frame that carries a reading recovers every field of it. */
  lemma DecodeEncodeFrame(rd: Reading, m: Telemetry)
    requires Encodable(rd)
    ensures Decode(EncodeFrame(rd), m)[StatusKey] == Str(StatusText(rd.status))
    ensures Decode(EncodeFrame(rd), m)[FaultKey] == Int(rd.fault)
    ensures Decode(EncodeFrame(rd), m)[RuntimeKey] == Int(rd.runtime)
    ensures Decode(EncodeFrame(rd), m)[CurrentKey] == Tenths(rd.currentTenths)
    ensures Decode(EncodeFrame(rd), m)[FrequencyKey] == Int(rd.frequency)
    ensures Decode(EncodeFrame(rd), m).Keys == m.Keys + FrameKeys
  {
  }
}
