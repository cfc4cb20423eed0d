# EasyStart Flex coordinator, modelled in Dafny

This project models the `EasyStartCoordinator` of the Home Assistant
integration for the Micro-Air EasyStart Flex soft starter. The coordinator
keeps a Bluetooth LE session to the device and a telemetry dictionary `data`
that the sensor entities read.

- `BigEndian` (`bigendian.dfy`): a `Byte` type (0..255) and unsigned
  big-endian integers of any width. `FromBytes` is `int.from_bytes(..., "big")`
  and `ToBytes` is its inverse. Both round trips are proved.
- `Notification` (`notification.dfy`): the notification decoder
  `_handle_notification` as a pure function `Decode(frame, data)`. Each field is
  written only when the frame is long enough to hold it:
  - byte 0 → `status`, through the status table;
  - byte 1 → `fault_code`;
  - bytes 2–3 → `runtime_hours`, big-endian;
  - byte 4 → `live_current`, in tenths of an ampere, together with byte 5 → `line_frequency`.
- `EasyStartCoordinator` (`coordinator.dfy`): the coordinator as an immutable
  record `Coordinator(connected, hasClient, data)`. It has pure transitions
  `Connect`, `Disconnect`, `HandleNotification` and `UpdateData`. Every
  transport step is a success/failure parameter:
  - opening the link;
  - `start_notify`;
  - the enable write;
  - the client's close;
  - the read of the total-starts characteristic.
- `Lifecycle` (`lifecycle.dfy`): any sequence of calls made one at a time,
  starting from a fresh coordinator. Every reachable state satisfies an
  invariant:
  - the flag is set only when a client exists;
  - every value has its writer's kind and range;
  - only keys the coordinator writes ever appear.

Telemetry values are `Str`, `Int` or `Tenths`. The source stores
`live_current` as the float `byte / 10.0`. Here it is the integer `byte`,
counted in tenths.

Facts about the code that shape the model:
- Byte 1 is stored under `fault_code`.
- Bytes 6 and 7 are not decoded, so `last_start_peak` and `scpt_delay` are
  never written.
- `connect` makes one attempt, with no retry or backoff.
- `update_data` is never called on a timer.
- The connection flag has two values, `connected` true or false.

## Model

| member | source | states |
|---|---|---|
| BigEndian.FromBytes | custom_components/easystart_flex/__init__.py:106 | reading `w` bytes big-endian gives a value below 256^w |
| BigEndian.FromBytesFirstByte | custom_components/easystart_flex/__init__.py:106 | the first byte is the most significant: it weighs 256 to the power of the number of bytes after it |
| BigEndian.ToBytes | custom_components/easystart_flex/__init__.py:106 | the `w`-byte big-endian encoding has exactly `w` bytes and ends in the value's low byte |
| BigEndian.FromBytesToBytes | custom_components/easystart_flex/__init__.py:106 | encoding any value that fits in `w` bytes and decoding it yields the value |
| BigEndian.ToBytesFromBytes | custom_components/easystart_flex/__init__.py:106 | decoding a byte string and re-encoding it at the same width gives back the same bytes, leading zeros included |
| BigEndian.FromBytesInjective | custom_components/easystart_flex/__init__.py:106 | two byte strings of the same width decode to the same counter if and only if they are equal |
| Notification.StatusText | custom_components/easystart_flex/__init__.py:78-84 | the status text is always one of Idle/Starting/Running/Unknown; it is Idle iff the code is 16, Starting iff 17, Running iff 18, Unknown iff any other code |
| Notification.ShiftOrIsMultiplyAdd | custom_components/easystart_flex/__init__.py:89-91 | on two bytes held in 16-bit words, shifting the high byte left by 8 and or-ing in the low byte gives exactly the integer `high * 256 + low`, the formula the decoder uses |
| Notification.WrittenKeys | custom_components/easystart_flex/__init__.py:85-95 | a frame writes only keys from the five frame fields |
| Notification.Decode | custom_components/easystart_flex/__init__.py:74-95 | an empty frame leaves the map unchanged. The keys afterwards are the old keys plus the length-gated prefix. The status is the table lookup of byte 0. `fault_code` is byte 1 (length ≥ 2). `runtime_hours` is byte2·256+byte3, in 0..65535 (length ≥ 4). `live_current` is byte 4 tenths and `line_frequency` is byte 5 (length ≥ 6). Every key outside the written prefix keeps its value |
| Notification.WrittenKeysPrefix | custom_components/easystart_flex/__init__.py:86-95 | longer frames write a superset of the keys. `live_current` and `line_frequency` are written together or not at all, and never for lengths below 6 |
| Notification.DecodeFrame | custom_components/easystart_flex/__init__.py:85-95 | a key outside the five frame fields, such as `total_starts`, keeps its presence and value, and no key is ever removed |
| Notification.RuntimeIsBigEndian | custom_components/easystart_flex/__init__.py:88-91 | `runtime_hours` equals the big-endian value of bytes 2..3, the same rule as the counter read |
| Notification.DecodeIdempotent | custom_components/easystart_flex/__init__.py:74-95 | delivering the same frame twice has the same effect as delivering it once |
| Notification.DecodeLastWriteWins | custom_components/easystart_flex/__init__.py:85-95 | after two frames, the second frame's value wins for each key it is long enough to carry, and the first frame's value stays for every other key |
| Notification.DecodeEncodeFrame | custom_components/easystart_flex/__init__.py:78-95 | decoding the six-byte frame of a reading recovers its status text, fault code, 16-bit runtime, current tenths and frequency, and writes all five frame keys |
| EasyStartCoordinator.Init | custom_components/easystart_flex/__init__.py:44-50 | a new coordinator has no client, is not connected and has empty telemetry |
| EasyStartCoordinator.Connect | custom_components/easystart_flex/__init__.py:52-67 | when already connected, nothing changes. Otherwise a client exists afterwards, and the flag ends set iff the link, the subscription and the enable write all succeed. Telemetry is untouched |
| EasyStartCoordinator.ConnectIdempotent | custom_components/easystart_flex/__init__.py:54-55 | once `connect` has left the flag set, a further `connect` is a no-op whatever the transport does |
| EasyStartCoordinator.ConnectFailureLeavesDisconnected | custom_components/easystart_flex/__init__.py:56-67 | a failure at any of the three steps leaves the flag clear. This includes a failure after the flag was set on a successful link. The only change is that a client now exists |
| EasyStartCoordinator.Disconnect | custom_components/easystart_flex/__init__.py:69-72 | only a connected coordinator with a client acts. A successful close clears the flag. A failed close raises and changes nothing. In every other case nothing changes and nothing is raised. Telemetry is kept |
| EasyStartCoordinator.DisconnectIdempotent | custom_components/easystart_flex/__init__.py:69-72 | after a `disconnect` that returned normally, a second one changes nothing and cannot raise |
| EasyStartCoordinator.HandleNotification | custom_components/easystart_flex/__init__.py:74-95 | a notification changes only the telemetry, by decoding the frame, whatever the connection flag is |
| EasyStartCoordinator.UpdateData | custom_components/easystart_flex/__init__.py:100-109 | `connect` runs first. A successful read sets `total_starts` to the big-endian value of the bytes read, which is below 256^width. A failed read leaves the telemetry unchanged. No other key changes |
| EasyStartCoordinator.UpdateDataRoundTrip | custom_components/easystart_flex/__init__.py:104-106 | a counter the device encodes big-endian in any width it fits reads back as itself |
| Lifecycle.Apply | custom_components/easystart_flex/__init__.py:52-109 | no call removes a telemetry key. Only notifications and polls change telemetry. A notification never changes the flag |
| Lifecycle.ApplyPreservesInv | custom_components/easystart_flex/__init__.py:52-109 | every call keeps the invariant: the flag is set only with a client, only known keys appear, and every value has its writer's kind and range |
| Lifecycle.RunPreservesInv | custom_components/easystart_flex/__init__.py:52-109 | any run of calls from a state that satisfies the invariant keeps it |
| Lifecycle.ReachableInv | custom_components/easystart_flex/sensor.py:62 | from a fresh coordinator the invariant always holds. `diag`, `last_start_peak`, `scpt_delay` and `total_faults` are never written, so their sensors always show their defaults |
| Lifecycle.RunKeepsKeys | custom_components/easystart_flex/__init__.py:69-72 | no sequence of calls ever drops a reading, so last known values survive disconnects and failed connects |
| Lifecycle.OnlyDisconnectClears | custom_components/easystart_flex/__init__.py:52-109 | once the flag is set, every call except `disconnect` leaves it set, whatever the transport does |
| Lifecycle.ConnectThenDisconnect | custom_components/easystart_flex/__init__.py:52-72 | a fully successful connect sets the flag. A successful disconnect then clears it and keeps the telemetry, and a second disconnect is a no-op |

## Left out

- Bluetooth I/O (`BleakClient`, `client.connect`, `start_notify`, `write_gatt_char`, `read_gatt_char`, `client.disconnect`): foreign transport calls. Each appears only as a success/failure parameter, or as the bytes read. Constructing a `BleakClient` is taken to succeed.
- The read outcome in `UpdateData` is not tied to the connection flag. The transport decides whether a read on an unconnected client fails, and the model lets the caller choose.
- The `asyncio.Lock` and any interleaving of `disconnect` with `connect`: concurrency. The model is sequential, one call at a time, which the lock gives `connect`.
- Unsolicited link loss: the `BleakClient` at `__init__.py:57` is made without a disconnect callback, so nothing clears the flag when the link drops on its own. After such a drop `connect` stays a no-op and every later `update_data` read fails. The model has no link-drop event, and `Lifecycle.OnlyDisconnectClears` states that only `disconnect` clears the flag.
- The physical link state of the client is not modelled. As written, a `start_notify` or enable-write failure after `client.connect` succeeded leaves the link open while `connected` is false. A later `disconnect` then skips `client.disconnect()`.
- The entity refresh through `async_get_current_platform()` / `async_add_entities([])` at the end of the notification handler: framework callback glue. It runs once at the end of every non-empty notification; `update_data`'s write triggers no refresh.
- Home Assistant setup, unload, reload and the `hass.data` registry: framework plumbing.
- Float division for `live_current`: it is held as an integer count of tenths.
- `sensor.py`, `binary_sensor.py`, `switch.py`: presentation entities that read `data` with defaults or forward to `connect`/`disconnect`. The `diag` key that `sensor.py:62` reads is never written. `Lifecycle.ReachableInv` states this, along with three other sensor keys that are never written.
- `config_flow.py`: a form that collects a MAC address string.
