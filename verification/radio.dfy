/**
 * The values exchanged with the Bluetooth LE transport: scan hits, the GATT
 * service table and the commands the view model issues. The transport itself
 * (the scanner and the GATT client) is not modelled; what the view model asks
 * of it is appended to a command log, and what it answers is passed in.
 */
module Radio {
  import opened Wrappers

  /** An octet, read unsigned (as getIntValue reads the bytes of a Kotlin ByteArray). */
  newtype byte = b: int | 0 <= b < 0x100

  /** A java.util.UUID: two 64-bit halves, equal exactly when both halves are. */
  datatype Uuid = Uuid(mostSigBits: nat, leastSigBits: nat)

  /** A BluetoothGatt client object, told apart by identity only. */
  type GattHandle = nat

  /** The part of an Android ScanResult the view model and its screen use. */
  datatype ScanResult = ScanResult(address: string, name: Option<string>, rssi: int, connectable: bool)

  /** A GATT characteristic: its UUID, its properties bitmask, the UUIDs of its descriptors and its current value. */
  datatype Characteristic = Characteristic(uuid: Uuid, properties: int, descriptors: seq<Uuid>, value: seq<byte>)

  /** A GATT service with its characteristics in table order. */
  datatype Service = Service(uuid: Uuid, characteristics: seq<Characteristic>)

  /** A call the view model makes on the scanner, a device or a GATT handle. */
  datatype Command =
    | StartScan
    | StopScan
    | ConnectGatt(address: string)
    | DiscoverServices(gatt: GattHandle)
    | SetCharacteristicNotification(gatt: GattHandle, characteristic: Uuid, enable: bool)
    | WriteDescriptor(gatt: GattHandle, descriptor: Uuid, value: seq<byte>)
    | Disconnect(gatt: GattHandle)
    | Close(gatt: GattHandle)
}
