/**
 * The constants of the view model's companion object, and the Android
 * framework constants its callbacks compare against.
 */
module GattAttributes {
  import opened Radio

  /** Length of a scan window in milliseconds (the window's end is an explicit event in this model). */
  const SCAN_PERIOD: nat := 3000

  /** connectionState before any connection attempt. */
  const STATE_NEVER_CONNECTED: int := -1
  const STATE_DISCONNECTED: int := 0
  const STATE_CONNECTING: int := 1
  const STATE_CONNECTED: int := 2

  /** The Bluetooth base UUID 0000xxxx-0000-1000-8000-00805f9b34fb filled in with a 16-bit alias. */
  const UUID_HEART_RATE_MEASUREMENT: Uuid := Uuid(0x0000_2A37_0000_1000, 0x8000_0080_5F9B_34FB)
  const UUID_HEART_RATE_SERVICE: Uuid := Uuid(0x0000_180D_0000_1000, 0x8000_0080_5F9B_34FB)
  const UUID_CLIENT_CHARACTERISTIC_CONFIG: Uuid := Uuid(0x0000_2902_0000_1000, 0x8000_0080_5F9B_34FB)

  /** BluetoothProfile.STATE_DISCONNECTED and STATE_CONNECTED. */
  const PROFILE_STATE_DISCONNECTED: int := 0
  const PROFILE_STATE_CONNECTED: int := 2

  /** BluetoothGatt.GATT_SUCCESS. */
  const GATT_SUCCESS: int := 0

  /**
   * BluetoothGattDescriptor.ENABLE_NOTIFICATION_VALUE: the Client Characteristic
   * Configuration value with the Notification bit (bit 0) set, little-endian
   * (Bluetooth Core Specification, Vol 3, Part G, section 3.3.3.3).
   */
  const ENABLE_NOTIFICATION_VALUE: seq<byte> := [0x01, 0x00]

  /** BluetoothGattCharacteristic.PROPERTY_NOTIFY, the property a heart-rate sensor's measurement characteristic has. */
  const PROPERTY_NOTIFY: int := 0x10
}
