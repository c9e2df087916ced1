# Heart-rate monitor view model (lab13), modelled in Dafny

This project models `MyViewModel`, the client-side controller of an Android app that reads a
Bluetooth LE heart-rate sensor. The controller does three things:

- **Scan aggregation.** During a scan window, each hit is filed under its device address in a
  working table, and the last hit for an address wins. When the window ends, the table's values are
  published as the scan results.
- **Session state machine.** `connectionState` is −1 before any attempt. It becomes 1 on
  `connectToDevice` and 2 when the link comes up, and the link-up event starts service discovery.
  It becomes 0 when the link goes down; that event also resets the reading and disconnects and
  closes the handle. After a successful discovery, the Heart Rate Services (0x180D) have their Heart
  Rate Measurement characteristic (0x2A37) subscribed in table order, up to the first service on
  which `setupNotifications` throws; that service gets nothing if it lacks 0x2A37, and the services
  after it get nothing. When a subscription is accepted,
  `ENABLE_NOTIFICATION_VALUE` is written to the characteristic's Client Characteristic
  Configuration descriptor (0x2902). That write is defined in section 3.3.3.3 of the Bluetooth Core
  Specification, Vol 3, Part G.
- **Measurement decoding.** `extractHeartRate` reads the rate at offset 1 of the characteristic's
  value. The read is UINT16 little-endian when bit 0 of the characteristic's *properties* is set,
  and UINT8 otherwise. It returns −1 when the value is too short.

Modules, one per file:

- `Wrappers`: `Option`, which stands for Kotlin's nullable types.
- `Radio`: the transport's values. These are bytes, UUIDs, scan results, characteristics, services, and
  the `Command` log of calls made on the scanner and GATT handles.
- `GattAttributes`: the companion object's constants and the Android constants the callbacks compare
  against.
- `HeartRateMeasurement`: the decoder.
- `ScanAggregation`: the working table's update and its lemmas, and `values.toList()`.
- `GattSubscription`: the specification of the discovery/subscription sequence and its lemmas.
- `ViewModel`: the class `MyViewModel`. It has the source's fields, and its methods update them
  in place.

The radio is abstract. Every call the view model makes on it is appended to `commands`. What it
answers is passed in as a parameter: the handle `connectGatt` returns, the service table, and the
result of each `setCharacteristicNotification`.

The code departs from the Heart Rate Service specification in one place, and leaves four cases
unguarded. The model keeps each as written:

- **Format bit.** In the Heart Rate Measurement format of the Heart Rate Service specification,
  the UINT8/UINT16 choice is bit 0 of the flags byte at offset 0. The code tests bit 0 of the
  characteristic's properties instead, a bit that is clear on a notify-only characteristic.
  `HeartRateValue` decodes as the Heart Rate Service specification defines, and
  `HeartRateValueEncode` proves that it reads back every rate encoded that way.
  `ExtractAgreesWithFlagsFormat` proves that the two decoders agree whenever the two bits agree.
  `PropertiesBitMisreadsUint16Rate` gives a 300 bpm UINT16 reading that the code decodes as 44.
- **Second scan.** Nothing rejects a second scan while one is running. Only the screen's button is
  disabled.
- **Connecting.** `connectToDevice` does not look at the current state. It replaces the stored
  handle.
- **Link loss.** Every link-down event disconnects and closes the event's handle again, so a
  repeated event closes the same handle twice. The stored handle is never cleared.
- **Late events.** A late service-discovery or characteristic event is not checked against the
  connection state. It still subscribes or updates the reading.

## Model

| member | source | states |
|---|---|---|
| `ViewModel.MyViewModel.constructor` | app/src/main/java/com/example/lab13/MainActivity.kt:54-59 | initial state: no published results, not scanning, empty table, connection state −1, reading 0, no handle, no command issued |
| `ViewModel.MyViewModel.StartDeviceScan` | app/src/main/java/com/example/lab13/MainActivity.kt:61-69 | sets the scanning flag, empties the working table and issues one startScan; no guard against a running scan |
| `ViewModel.MyViewModel.OnScanResult` | app/src/main/java/com/example/lab13/MainActivity.kt:88-93 | the table afterwards is the old one with the hit filed under its address (Upsert); the table stays keyed by address |
| `ViewModel.MyViewModel.ScanWindowElapsed` | app/src/main/java/com/example/lab13/MainActivity.kt:70-73 | issues stopScan, clears the scanning flag and publishes a list with exactly one element per table entry, each the entry for its address, no address twice |
| `ViewModel.MyViewModel.ConnectToDevice` | app/src/main/java/com/example/lab13/MainActivity.kt:77-81 | state becomes CONNECTING (1) and the returned handle (or null) replaces the stored one, whatever the state was; one connectGatt issued |
| `ViewModel.MyViewModel.DisconnectFromDevice` | app/src/main/java/com/example/lab13/MainActivity.kt:83-86 | no published field changes; one disconnect on the stored handle if there is one, nothing otherwise |
| `ViewModel.MyViewModel.OnConnectionStateChange` | app/src/main/java/com/example/lab13/MainActivity.kt:97-112 | link up: state 2 and exactly one discoverServices; link down: state 0, reading 0, disconnect then close of the event's handle; any other state: nothing changes |
| `ViewModel.MyViewModel.SetupNotifications` | app/src/main/java/com/example/lab13/MainActivity.kt:130-137 | issues exactly the commands of NotificationSetup and reports whether the callback would have thrown |
| `ViewModel.MyViewModel.OnServicesDiscovered` | app/src/main/java/com/example/lab13/MainActivity.kt:114-128 | a failed discovery issues nothing; a successful one issues exactly the commands of Subscription, the services taken in table order |
| `ViewModel.MyViewModel.OnCharacteristicChanged` | app/src/main/java/com/example/lab13/MainActivity.kt:139-144 | the reading becomes the decoded measurement when the UUID is 0x2A37 and is unchanged for any other UUID |
| `HeartRateMeasurement.GetIntValue` | app/src/main/java/com/example/lab13/MainActivity.kt:152 | null exactly when offset plus the format's width runs past the value; otherwise the little-endian number at the offset, within the format's range |
| `HeartRateMeasurement.ExtractHeartRate` | app/src/main/java/com/example/lab13/MainActivity.kt:146-153 | properties bit 0 set and at least 3 bytes: value[1] + 256·value[2]; bit clear and at least 2 bytes: value[1]; −1 exactly when too short; always in [−1, 65535] |
| `HeartRateMeasurement.EncodeMeasurement` | app/src/main/java/com/example/lab13/MainActivity.kt:146-153 | the sensor-side inverse: flags byte first, then the rate in the given format |
| `HeartRateMeasurement.DecodeEncode` | app/src/main/java/com/example/lab13/MainActivity.kt:146-153 | every rate the chosen format holds is decoded back unchanged, whatever the flags byte |
| `HeartRateMeasurement.HeartRateValue` | app/src/main/java/com/example/lab13/MainActivity.kt:146-153 | reference decoder taking the format from the flags byte; None exactly when the value is too short |
| `HeartRateMeasurement.HeartRateValueEncode` | app/src/main/java/com/example/lab13/MainActivity.kt:146-153 | the reference decoder reads back every rate encoded in the format its flags byte announces |
| `HeartRateMeasurement.ExtractAgreesWithFlagsFormat` | app/src/main/java/com/example/lab13/MainActivity.kt:147-152 | when properties bit 0 equals flags bit 0, extractHeartRate returns the reference decoding (−1 for None) |
| `HeartRateMeasurement.PropertiesBitMisreadsUint16Rate` | app/src/main/java/com/example/lab13/MainActivity.kt:147-152 | a notify-only characteristic carrying 300 bpm as UINT16 is read as 44 |
| `ScanAggregation.Upsert` | app/src/main/java/com/example/lab13/MainActivity.kt:91 | the hit's address maps to the hit, every other entry is unchanged, keys grow by that address only, keying by address is preserved |
| `ScanAggregation.AggregateKeys` | app/src/main/java/com/example/lab13/MainActivity.kt:89-93 | after any hit sequence the table's keys are the old keys plus the addresses hit; entries for addresses not hit are unchanged |
| `ScanAggregation.AggregateLastHitWins` | app/src/main/java/com/example/lab13/MainActivity.kt:89-93 | after any hit sequence each address hit maps to the last hit for that address |
| `ScanAggregation.WindowHasOneEntryPerAddress` | app/src/main/java/com/example/lab13/MainActivity.kt:64-72 | a window started on the cleared table ends with exactly one entry per distinct address, each the last hit for it |
| `ScanAggregation.TwoDevicesThreeHits` | app/src/main/java/com/example/lab13/MainActivity.kt:89-93 | hits AA:BB −70, AA:BB −60, CC:DD −80 leave exactly {AA:BB at −60, CC:DD at −80} |
| `ViewModel.TwoDevicesScanWindow` | app/src/main/java/com/example/lab13/MainActivity.kt:61-93 | a whole window through the view model (start, hits AA:BB −70, AA:BB −60, CC:DD −80, window end) publishes exactly two results, AA:BB at −60 and CC:DD at −80 |
| `ScanAggregation.ValuesToList` | app/src/main/java/com/example/lab13/MainActivity.kt:72 | the list holds exactly the map's values, one element per entry: as many elements as keys, each the value of a distinct key, every key's value present |
| `GattSubscription.FindCharacteristic` | app/src/main/java/com/example/lab13/MainActivity.kt:131 | None exactly when no characteristic has the UUID; otherwise the first characteristic with that UUID |
| `GattSubscription.NotificationSetupIssues` | app/src/main/java/com/example/lab13/MainActivity.kt:130-137 | one service: subscribe then write ENABLE_NOTIFICATION_VALUE when accepted and the descriptor exists; subscribe only when refused, or when accepted on a characteristic without the descriptor; nothing without the characteristic; throws exactly when the characteristic is missing, or when the subscription is accepted and the descriptor is missing (a refused subscription completes with or without the descriptor) |
| `GattSubscription.SubscriptionIssuesOnlyEnable` | app/src/main/java/com/example/lab13/MainActivity.kt:121-137 | every command a discovery issues is a subscription of 0x2A37, or a write of ENABLE_NOTIFICATION_VALUE to 0x2902 straight after one, on the discovering handle |
| `GattSubscription.SubscriptionCounts` | app/src/main/java/com/example/lab13/MainActivity.kt:121-137 | with well-formed heart-rate services: runs to the end, one subscription per 0x180D service, one descriptor write per accepted subscription, nothing at all without a 0x180D service |
| `GattSubscription.SubscriptionCountsBounded` | app/src/main/java/com/example/lab13/MainActivity.kt:121-137 | for every table, including one on which setupNotifications throws partway: at most one subscription per 0x180D service and at most one descriptor write per accepted subscription |

## Left out

- The Compose screen (`ShowDevices`, `DeviceItem`) and `MainActivity`'s permission checks and adapter
  lookup. They are presentation and Android system calls.
- The coroutine, `Dispatchers.IO` and `delay(SCAN_PERIOD)`. The end of the 3000 ms window is the
  explicit method `ScanWindowElapsed`. A second overlapping scan is therefore two starts and two
  window ends in whatever order the caller chooses.
- LiveData `postValue` is asynchronous and callbacks run on framework threads. Each post is modelled
  as a direct assignment and each handler as atomic.
- The scan settings (low latency, report delay 0) are configuration only. The `StartScan` command
  does not carry them.
- `Log` calls.
- The real scanner and GATT calls are out of scope. Each is a `Command` appended to the log, and its
  results are parameters. The `context` and `autoConnect` arguments of `connectGatt` and the return
  value of `writeDescriptor` are ignored, as the code ignores that return value.
- Exceptions. A missing measurement characteristic makes the callback throw a null-reference
  exception, and so does a missing configuration descriptor once setCharacteristicNotification has
  accepted the subscription (the descriptor is looked up only then). The model stops issuing commands at that point and
  returns `completed == false`. What the framework does with the exception is not modelled.
- `descriptor.value` is assigned on the descriptor object. The model records the value only in the
  `WriteDescriptor` command.
- A `ScanResult` keeps only the address, name, signal strength and connectable flag. A
  `BluetoothDevice` is represented by its address.
- A characteristic value is a Kotlin `ByteArray` of signed bytes. The model holds each byte as its
  unsigned value 0..255, which is how `getIntValue` reads the unsigned formats.
- Kotlin `Int` is 32 bits wide and the model's `int` is unbounded. The decoder's results never
  exceed 65535, so no wrap-around can occur. Bit 0 of `properties` is taken with Dafny's
  non-negative remainder, which equals the two's-complement low bit for negative values as well.
- The results of `setCharacteristicNotification` are passed to `OnServicesDiscovered` as a list
  parallel to the service table. Only the entries for heart-rate services are read.
